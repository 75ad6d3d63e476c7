/**
 `parse_env_list` (app.rb:15-17): an environment value, when set, split at
 commas (trailing empty pieces dropped) with each piece stripped of leading
 and trailing whitespace; an unset variable gives the empty list.
 */
module EnvList {
  import opened Options
  import opened Split

  /** The characters Ruby's String#strip removes: null, tab, line feed, vertical tab, form feed, carriage return, space. */
  predicate IsSpace(c: char)
  {
    c == '\0' || c == '\t' || c == '\n' || c == '\U{000B}' || c == '\U{000C}' || c == '\r' || c == ' '
  }

  /** `s` without its leading whitespace: a suffix of `s` that starts with a non-space, all it dropped being space. */
  function StripLeft(s: string): (r: string)
    ensures |r| <= |s| && r == s[|s| - |r|..]
    ensures forall i :: 0 <= i < |s| - |r| ==> IsSpace(s[i])
    ensures r == [] || !IsSpace(r[0])
  {
    if s != [] && IsSpace(s[0]) then StripLeft(s[1..]) else s
  }

  /** `s` without its trailing whitespace: a prefix of `s` that ends with a non-space, all it dropped being space. */
  function StripRight(s: string): (r: string)
    ensures |r| <= |s| && r == s[..|r|]
    ensures forall i :: |r| <= i < |s| ==> IsSpace(s[i])
    ensures r == [] || !IsSpace(r[|r| - 1])
  {
    if s != [] && IsSpace(s[|s| - 1]) then StripRight(s[..|s| - 1]) else s
  }

  /** Ruby's `s.strip`. */
  function Strip(s: string): (r: string)
    ensures |r| <= |s|
    ensures r == [] || (!IsSpace(r[0]) && !IsSpace(r[|r| - 1]))
  {
    StripRight(StripLeft(s))
  }

  /** A prefix of a suffix of `s` is a slice of `s`, and what the prefix left out is what it was. */
  lemma SliceOfSuffix(s: string, l: string, r: string, i: nat)
    requires i <= |s| && l == s[i..] && |r| <= |l| && r == l[..|r|]
    requires forall j :: |r| <= j < |l| ==> IsSpace(l[j])
    ensures i + |r| <= |s| && r == s[i..i + |r|]
    ensures forall k :: i + |r| <= k < |s| ==> IsSpace(s[k])
  {
    forall k | i + |r| <= k < |s| ensures IsSpace(s[k]) {
      assert s[k] == l[k - i];
    }
  }

  /**
   What strip means: the result is the stretch of `s` from offset `i` on,
   everything before and after it is whitespace, and it neither starts nor
   ends with whitespace.
   */
  lemma StripSlice(s: string) returns (i: nat)
    ensures i + |Strip(s)| <= |s| && Strip(s) == s[i..i + |Strip(s)|]
    ensures forall k :: 0 <= k < i ==> IsSpace(s[k])
    ensures forall k :: i + |Strip(s)| <= k < |s| ==> IsSpace(s[k])
    ensures Strip(s) == [] || (!IsSpace(Strip(s)[0]) && !IsSpace(Strip(s)[|Strip(s)| - 1]))
  {
    var l := StripLeft(s);
    var r := StripRight(l);
    i := |s| - |l|;
    SliceOfSuffix(s, l, r, i);
    if r != [] {
      assert r[0] == l[0];
    }
  }

  lemma StripKeepsOut(s: string, c: char)
    requires c !in s
    ensures c !in Strip(s)
  {
    var i := StripSlice(s);
    var t := Strip(s);
    forall k | 0 <= k < |t| ensures t[k] != c {
      assert t[k] == s[i + k];
    }
  }

  /** `ENV[key]&.split(",")&.map(&:strip) || []`. */
  function ParseEnvList(value: Option<string>): (r: seq<string>)
    ensures value.None? ==> r == []
    ensures value.Some? ==> |r| == |SplitDrop(value.value, ',')| <= Count(value.value, ',') + 1
    ensures value.Some? ==> forall i :: 0 <= i < |r| ==> r[i] == Strip(SplitDrop(value.value, ',')[i])
  {
    match value
    case None => []
    case Some(s) =>
      var parts := SplitDrop(s, ',');
      seq(|parts|, i requires 0 <= i < |parts| => Strip(parts[i]))
  }

  /** No listed name holds a comma or starts or ends with whitespace. */
  lemma ListedNamesAreClean(value: Option<string>, i: nat)
    requires i < |ParseEnvList(value)|
    ensures ',' !in ParseEnvList(value)[i]
    ensures ParseEnvList(value)[i] == [] ||
      (!IsSpace(ParseEnvList(value)[i][0]) && !IsSpace(ParseEnvList(value)[i][|ParseEnvList(value)[i]| - 1]))
  {
    assert value.Some?;
    var parts := SplitDrop(value.value, ',');
    var piece := parts[i];
    var name := ParseEnvList(value)[i];
    assert name == Strip(piece);
    assert ',' !in piece;
    StripKeepsOut(piece, ',');
  }

  /**
   A variable set to whitespace alone is not the empty list: it yields one
   empty name, so a non-empty allowlist results.
   */
  lemma BlankValueYieldsEmptyName(s: string)
    requires s != [] && forall k :: 0 <= k < |s| ==> IsSpace(s[k])
    ensures ParseEnvList(Some(s)) == [[]]
  {
    assert ',' !in s by {
      forall k | 0 <= k < |s| ensures s[k] != ',' { assert IsSpace(s[k]); }
    }
    PiecesFree(s, ',');
    assert SplitDrop(s, ',') == [s];
    assert Strip(s) == [];
  }
}
