/** The bundle metadata that a `product-grid` element exposes to the cards it
    hosts (`ProductGrid.getBundleProductData`): two host attributes,
    `data-bundle-condition` (comma-separated option names) and `data-bundle-id`. */
module ProductGrid {
  import opened Wrappers
  import opened JsString

  /** `{bundleConditionOptions, bundleId}`; the id is the raw attribute, `None` when it is absent. */
  datatype BundleData = BundleData(conditionOptions: seq<string>, bundleId: Option<string>)

  /** An entry in normal form: no upper-case letter, no whitespace at either end. */
  predicate Normalized(e: string)
  {
    (forall i :: 0 <= i < |e| ==> !IsUpper(e[i])) &&
    (e == [] || (!IsSpace(e[0]) && !IsSpace(e[|e| - 1])))
  }

  /** Lower-casing and then trimming yields an entry in normal form. */
  lemma TrimmedLowerIsNormalized(piece: string)
    ensures Normalized(Trim(Lower(piece)))
  {
    var low := Lower(piece);
    assert forall i :: 0 <= i < |low| ==> !IsUpper(low[i]);
    var r := Trim(low);
    SliceKeepsNoUpper(low, LeadingSpaces(low), r);
  }

  /** A slice of a string without capitals has none either. */
  lemma SliceKeepsNoUpper(s: string, a: nat, r: string)
    requires a + |r| <= |s| && s[a..a + |r|] == r
    requires forall i :: 0 <= i < |s| ==> !IsUpper(s[i])
    ensures forall i :: 0 <= i < |r| ==> !IsUpper(r[i])
  {
    forall i | 0 <= i < |r| ensures !IsUpper(r[i]) {
      assert r[i] == s[a + i];
    }
  }

  /** One condition entry as the parser stores it: lower-cased, then trimmed,
      which puts it in normal form and never lengthens it. */
  function Normalize(piece: string): (r: string)
    ensures Normalized(r)
    ensures |r| <= |piece|
  {
    TrimmedLowerIsNormalized(piece);
    Trim(Lower(piece))
  }

  /** A piece normalizes to the empty entry exactly when it is all whitespace,
      as `" "` in `"red, ,blue"` does. */
  lemma NormalizeBlank(piece: string)
    ensures Normalize(piece) == "" <==> forall i :: 0 <= i < |piece| ==> IsSpace(piece[i])
  {
  }

  /** Normalizing a comma-free piece leaves it comma-free. */
  lemma NormalizeKeepsCommaFree(piece: string)
    requires ',' !in piece
    ensures ',' !in Normalize(piece)
  {
    LowerKeepsCommaFree(piece);
    TrimKeepsCommaFree(Lower(piece));
  }

  /** Normalizing an entry already in normal form changes nothing. */
  lemma NormalizeFixesNormalized(e: string)
    requires Normalized(e)
    ensures Normalize(e) == e
  {
    assert Lower(e) == e;
    TrimOfTrimmed(e);
  }

  /** `getBundleProductData()`: `null` exactly when the condition attribute is
      absent or empty; otherwise one entry per comma-separated piece, in order,
      each the piece lower-cased and trimmed, together with the raw bundle id. */
  function GetBundleProductData(condition: Option<string>, bundleId: Option<string>): (r: Option<BundleData>)
    ensures r.None? <==> condition.None? || condition.value == ""
    ensures r.Some? ==> r.value.bundleId == bundleId
    ensures r.Some? ==> |r.value.conditionOptions| == Commas(condition.value) + 1
    ensures r.Some? ==> forall i :: 0 <= i < |r.value.conditionOptions| ==>
      r.value.conditionOptions[i] == Normalize(Split(condition.value)[i])
  {
    if condition.None? || condition.value == "" then None
    else
      var pieces := Split(condition.value);
      Some(BundleData(seq(|pieces|, i requires 0 <= i < |pieces| => Normalize(pieces[i])), bundleId))
  }

  /** Every parsed condition entry is in normal form and holds no comma. */
  lemma ConditionOptionsNormalized(condition: Option<string>, bundleId: Option<string>, i: nat)
    requires condition.Some? && condition.value != "" && i <= Commas(condition.value)
    ensures GetBundleProductData(condition, bundleId).Some?
    ensures i < |GetBundleProductData(condition, bundleId).value.conditionOptions|
    ensures Normalized(GetBundleProductData(condition, bundleId).value.conditionOptions[i])
    ensures ',' !in GetBundleProductData(condition, bundleId).value.conditionOptions[i]
  {
    NormalizeKeepsCommaFree(Split(condition.value)[i]);
  }

  /** Round trip: a non-empty list of normalized, comma-free names written into
      the attribute joined by commas is parsed back into exactly that list. */
  lemma {:induction false} ParseJoinedCondition(names: seq<string>, bundleId: Option<string>)
    requires |names| >= 1 && Join(names) != ""
    requires forall i :: 0 <= i < |names| ==> Normalized(names[i]) && ',' !in names[i]
    ensures GetBundleProductData(Some(Join(names)), bundleId) == Some(BundleData(names, bundleId))
  {
    SplitJoin(names);
    var r := GetBundleProductData(Some(Join(names)), bundleId);
    forall i | 0 <= i < |names| ensures r.value.conditionOptions[i] == names[i] {
      NormalizeFixesNormalized(names[i]);
    }
    assert r.value.conditionOptions == names;
  }
}
