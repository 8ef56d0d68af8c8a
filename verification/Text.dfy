/** Searching byte strings.  A `char` stands for one byte of the C++ `char` arrays. */
module Text {
  import opened Wrappers

  /** memchr: the first position of `c`, or the length when there is none. */
  function IndexOf(s: string, c: char): (i: nat)
    ensures i <= |s|
    ensures i < |s| ==> s[i] == c
    ensures c !in s[..i]
  {
    if s == [] || s[0] == c then 0
    else
      var i := 1 + IndexOf(s[1..], c);
      assert s[..i] == [s[0]] + s[1..][..i - 1];
      i
  }

  /** The only position that meets the contract of IndexOf. */
  lemma IndexOfIs(s: string, c: char, i: nat)
    requires i < |s| && s[i] == c && c !in s[..i]
    ensures IndexOf(s, c) == i
  {
    var j := IndexOf(s, c);
    assert forall k :: 0 <= k < i ==> s[k] in s[..i];
    assert forall k :: 0 <= k < j ==> s[k] in s[..j];
  }

  /** Bytes that arrive later do not move a separator that is already there. */
  lemma IndexOfAppend(s: string, x: string, c: char)
    requires IndexOf(s, c) < |s|
    ensures IndexOf(s + x, c) == IndexOf(s, c)
  {
    var i := IndexOf(s, c);
    assert (s + x)[..i] == s[..i];
    IndexOfIs(s + x, c, i);
  }

  /** Whether `sep` occurs in `s` at position `i`. */
  predicate OccursAt(s: string, sep: string, i: int) {
    0 <= i && i + |sep| <= |s| && forall k :: 0 <= k < |sep| ==> s[i + k] == sep[k]
  }

  /** std::string::find(sep, from). */
  function Find(s: string, sep: string, from: nat): (r: Option<nat>)
    ensures r.Some? ==> from <= r.value && r.value + |sep| <= |s|
    decreases |s| - from
  {
    if from + |sep| > |s| then None
    else if OccursAt(s, sep, from) then Some(from)
    else if from == |s| then None
    else Find(s, sep, from + 1)
  }

  /** The first occurrence at or after `from`, if there is one. */
  lemma {:induction false} FindMeaning(s: string, sep: string, from: nat)
    ensures match Find(s, sep, from)
      case Some(pos) => OccursAt(s, sep, pos) && forall j :: from <= j < pos ==> !OccursAt(s, sep, j)
      case None => forall j :: from <= j ==> !OccursAt(s, sep, j)
    decreases |s| - from
  {
    if from + |sep| <= |s| && !OccursAt(s, sep, from) && from < |s| {
      FindMeaning(s, sep, from + 1);
    }
  }

  lemma FindIs(s: string, sep: string, from: nat, pos: nat)
    requires from <= pos && OccursAt(s, sep, pos)
    requires forall j :: from <= j < pos ==> !OccursAt(s, sep, j)
    ensures Find(s, sep, from) == Some(pos)
  {
    FindMeaning(s, sep, from);
  }
}
