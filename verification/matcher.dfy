/** The column auto-matcher that seeds the three column pickers of the stock upload. */
module Matcher {
  import opened Wrappers
  import opened Strings

  const NameKeys: seq<string> := ["name", "desc", "item", "prod"]
  const ExpiryKeys: seq<string> := ["exp", "date", "validity"]
  const QtyKeys: seq<string> := ["qty", "stk", "bal", "hand"]

  /** The lower-cased column name contains at least one of the keywords. */
  predicate Matches(option: string, keys: seq<string>) {
    exists k :: k in keys && Contains(Lower(option), k)
  }

  /** The first matching position at or after `start`, if any. */
  function FirstMatchFrom(options: seq<string>, keys: seq<string>, start: nat): (r: Option<nat>)
    requires start <= |options|
    ensures r.Some? ==> start <= r.value < |options| && Matches(options[r.value], keys)
    ensures r.Some? ==> forall j :: start <= j < r.value ==> !Matches(options[j], keys)
    ensures r.None? ==> forall j :: start <= j < |options| ==> !Matches(options[j], keys)
    decreases |options| - start
  {
    if start == |options| then None
    else if Matches(options[start], keys) then Some(start)
    else FirstMatchFrom(options, keys, start + 1)
  }

  /** Index of the first column whose lower-cased name contains a keyword, or 0 when none does. */
  function GetIdx(options: seq<string>, keys: seq<string>): (i: nat)
    ensures |options| > 0 ==> i < |options|
    ensures (exists j :: 0 <= j < |options| && Matches(options[j], keys)) ==>
              i < |options| && Matches(options[i], keys) && forall j :: 0 <= j < i ==> !Matches(options[j], keys)
    ensures (forall j :: 0 <= j < |options| ==> !Matches(options[j], keys)) ==> i == 0
  {
    match FirstMatchFrom(options, keys, 0)
    case Some(i) => i
    case None => 0
  }

  /** A column name misses every keyword when each keyword has a character the lower-cased name lacks. */
  lemma NoKeyMatches(option: string, keys: seq<string>, absent: seq<char>)
    requires |absent| == |keys|
    requires forall i :: 0 <= i < |keys| ==> absent[i] in keys[i] && absent[i] !in Lower(option)
    ensures !Matches(option, keys)
  {
    forall i | 0 <= i < |keys| ensures !Contains(Lower(option), keys[i]) {
      MissingCharNotContained(Lower(option), keys[i], absent[i]);
    }
  }

  const PosExport: seq<string> := ["Code", "Description", "Qty On Hand"]

  lemma PosExportLowered()
    ensures Lower(PosExport[0]) == "code"
    ensures Lower(PosExport[1]) == "description"
    ensures Lower(PosExport[2]) == "qty on hand"
  {
  }

  /** A typical point-of-sale export: the quantity picker defaults to "Qty On Hand". */
  lemma PosExportQtyDefault()
    ensures GetIdx(PosExport, QtyKeys) == 2
  {
    PosExportLowered();
    assert "qty" <= "qty on hand";
    assert Matches(PosExport[2], QtyKeys) by {
      assert "qty" in QtyKeys && Contains(Lower(PosExport[2]), "qty");
    }
    NoKeyMatches(PosExport[0], QtyKeys, "qtbh");
    DescriptionIsNoQuantity();
  }

  lemma DescriptionIsNoQuantity()
    ensures !Matches(PosExport[1], QtyKeys)
  {
    PosExportLowered();
    NoKeyMatches(PosExport[1], QtyKeys, "qkbh");
  }

  /** On the same export the product-name picker defaults to "Description". */
  lemma PosExportNameDefault()
    ensures GetIdx(PosExport, NameKeys) == 1
  {
    PosExportLowered();
    assert "desc" <= "description";
    assert Matches(PosExport[1], NameKeys) by {
      assert "desc" in NameKeys && Contains(Lower(PosExport[1]), "desc");
    }
    NoKeyMatches(PosExport[0], NameKeys, "nsip");
  }

  /** No column mentions an expiry keyword, so the expiry picker falls back to the first column. */
  lemma PosExportExpiryDefault()
    ensures GetIdx(PosExport, ExpiryKeys) == 0
  {
    PosExportLowered();
    NoKeyMatches(PosExport[0], ExpiryKeys, "xav");
    NoKeyMatches(PosExport[1], ExpiryKeys, "xav");
    NoKeyMatches(PosExport[2], ExpiryKeys, "eev");
  }
}
