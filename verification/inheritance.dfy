/** The field list of CREATE TABLE ... INHERITS (parent): the table's own
    fields followed by copies of the parent's fields. */
module Inheritance {
  import opened Symbols

  /** `if result_inherits_from:` holds for a present, non-empty parent name. */
  predicate NamesParent(inheritsFrom: Option<string>) {
    inheritsFrom.Some? && inheritsFrom.value != ""
  }

  /** The field list the statement works with: the own fields, then the
      parent's fields (looked up by `fieldsOf`) when a parent is named. */
  function ResolveFields(own: seq<FieldSymbol>, inheritsFrom: Option<string>,
                         fieldsOf: string -> seq<FieldSymbol>): (fields: seq<FieldSymbol>)
    ensures !NamesParent(inheritsFrom) ==> fields == own
    ensures NamesParent(inheritsFrom) ==>
      var parent := fieldsOf(inheritsFrom.value);
      && |fields| == |own| + |parent|
      && (forall i :: 0 <= i < |own| ==> fields[i] == own[i])
      && (forall j :: 0 <= j < |parent| ==> fields[|own| + j] == parent[j])
  {
    if NamesParent(inheritsFrom) then own + fieldsOf(inheritsFrom.value) else own
  }

  /** An element of the field list as the source builds it: a field, or a
      whole list of fields appended as a single element. */
  datatype ListEntry = Single(field: FieldSymbol) | Nested(fields: seq<FieldSymbol>)

  /** The field list as written: `result_fields.append(parent_fields)` adds
      the parent's list as ONE element instead of extending the list. */
  function FieldListAsWritten(own: seq<FieldSymbol>, inheritsFrom: Option<string>,
                              fieldsOf: string -> seq<FieldSymbol>): (entries: seq<ListEntry>)
    ensures |entries| == |own| + (if NamesParent(inheritsFrom) then 1 else 0)
    ensures forall i :: 0 <= i < |own| ==> entries[i] == Single(own[i])
  {
    var singles := seq(|own|, i requires 0 <= i < |own| => Single(own[i]));
    if NamesParent(inheritsFrom) then singles + [Nested(fieldsOf(inheritsFrom.value))] else singles
  }

  /** With a parent, the list as written has one element per own field plus
      one list element: the field count handed to `createTable` is off
      whenever the parent does not have exactly one field, and the last
      element is a list, which has no primary-key flag for the key filter to
      read. */
  lemma AsWrittenMiscountsInheritedFields(own: seq<FieldSymbol>, parent: string,
                                          fieldsOf: string -> seq<FieldSymbol>)
    requires parent != ""
    ensures var entries := FieldListAsWritten(own, Some(parent), fieldsOf);
      && |entries| == |own| + 1
      && entries[|own|] == Nested(fieldsOf(parent))
      && (|fieldsOf(parent)| != 1 ==> |entries| != |ResolveFields(own, Some(parent), fieldsOf)|)
  {
  }

  /** A table with no own fields inheriting from a two-field parent: the
      source counts one field where the table has two. */
  lemma AsWrittenCountExample(f: FieldSymbol, g: FieldSymbol)
    ensures var fieldsOf := (p: string) => [f, g];
      && |FieldListAsWritten([], Some("parent"), fieldsOf)| == 1
      && |ResolveFields([], Some("parent"), fieldsOf)| == 2
  {
  }
}
