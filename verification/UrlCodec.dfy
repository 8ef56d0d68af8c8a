/** net/http/http.hpp, class Util: percent-encoding, percent-decoding and string splitting. */
module UrlCodec {
  import opened Wrappers
  import opened Text

  // ---- encoding ----

  predicate IsUnreserved(c: char) {
    'A' <= c <= 'Z' || 'a' <= c <= 'z' || '0' <= c <= '9' || c == '-' || c == '.' || c == '_' || c == '~'
  }

  function HexDigit(v: nat): char
    requires v < 16
  {
    if v < 10 then '0' + v as char else 'A' + (v - 10) as char
  }

  /** snprintf(buf, 4, "%%%02X", c) on a plain char: a negative char is promoted to an int of eight
      hexadecimal digits, of which the four-byte buffer keeps the two leading F's. */
  function PercentByte(c: char): string {
    if c as int < 128 then ['%', HexDigit(c as int / 16), HexDigit(c as int % 16)] else "%FF"
  }

  function EncodeByte(c: char, spaceToPlus: bool): string {
    if IsUnreserved(c) then [c]
    else if c == ' ' then (if spaceToPlus then "+" else "%20")
    else PercentByte(c)
  }

  function Encoded(url: string, spaceToPlus: bool): string {
    if url == [] then [] else EncodeByte(url[0], spaceToPlus) + Encoded(url[1..], spaceToPlus)
  }

  lemma EncodedStep(before: string, url: string, i: nat, spaceToPlus: bool)
    requires i < |url|
    ensures before + Encoded(url[i..], spaceToPlus)
         == (before + EncodeByte(url[i], spaceToPlus)) + Encoded(url[i + 1..], spaceToPlus)
  {
    assert url[i..][1..] == url[i + 1..];
  }

  method UrlEncode(url: string, spaceToPlus: bool) returns (output: string)
    ensures output == Encoded(url, spaceToPlus)
  {
    output := "";
    var i := 0;
    while i < |url|
      invariant 0 <= i <= |url|
      invariant output + Encoded(url[i..], spaceToPlus) == Encoded(url, spaceToPlus)
    {
      var c := url[i];
      EncodedStep(output, url, i, spaceToPlus);
      if IsUnreserved(c) {
        output := output + [c];
      } else if c == ' ' {
        output := output + (if spaceToPlus then "+" else "%20");
      } else {
        output := output + PercentByte(c);
      }
      i := i + 1;
    }
  }

  // ---- decoding ----

  /** The letters run up to Z, as in the source, so values go up to 35. */
  function Hextoi(ch: char): (v: int)
    ensures -1 <= v < 36
  {
    if '0' <= ch <= '9' then ch as int - '0' as int
    else if 'A' <= ch <= 'Z' then ch as int - 'A' as int + 10
    else if 'a' <= ch <= 'z' then ch as int - 'a' as int + 10
    else -1
  }

  /** Bitwise or of two non-negative numbers. */
  function BitOr(a: nat, b: nat): nat
    decreases a + b
  {
    if a == 0 then b
    else if b == 0 then a
    else 2 * BitOr(a / 2, b / 2) + (if a % 2 == 1 || b % 2 == 1 then 1 else 0)
  }

  /** (hi << 4) | lo stored in one byte. */
  function JoinNibbles(hi: nat, lo: nat): char {
    ByteOf(BitOr(16 * hi, lo))
  }

  function ByteOf(n: nat): char {
    (n % 256) as char
  }

  predicate IsEscape(url: string) {
    |url| > 2 && url[0] == '%' && Hextoi(url[1]) != -1 && Hextoi(url[2]) != -1
  }

  /** A plus sign that stands for a space is replaced by a space and then copied as well: the
      branch for it does not skip the copy at the end of the loop body. */
  function Decoded(url: string, plusToSpace: bool): string {
    if url == [] then []
    else if url[0] == '+' && plusToSpace then " +" + Decoded(url[1..], plusToSpace)
    else if IsEscape(url) then
      [JoinNibbles(Hextoi(url[1]), Hextoi(url[2]))] + Decoded(url[3..], plusToSpace)
    else [url[0]] + Decoded(url[1..], plusToSpace)
  }

  lemma {:induction false} DecodedStep(before: string, url: string, i: nat, plusToSpace: bool)
    requires i < |url|
    ensures before + Decoded(url[i..], plusToSpace)
         == if url[i] == '+' && plusToSpace then (before + " " + [url[i]]) + Decoded(url[i + 1..], plusToSpace)
            else if IsEscape(url[i..]) then
              (before + [JoinNibbles(Hextoi(url[i + 1]), Hextoi(url[i + 2]))]) + Decoded(url[i + 3..], plusToSpace)
            else (before + [url[i]]) + Decoded(url[i + 1..], plusToSpace)
  {
    var rest := url[i..];
    assert rest[1..] == url[i + 1..];
    if IsEscape(rest) {
      assert rest[3..] == url[i + 3..];
    }
    if url[i] == '+' && plusToSpace {
      assert before + " " + [url[i]] == before + " +";
    }
  }

  method UrlDecode(url: string, plusToSpace: bool) returns (res: string)
    ensures res == Decoded(url, plusToSpace)
  {
    res := "";
    var i := 0;
    while i < |url|
      invariant 0 <= i <= |url|
      invariant res + Decoded(url[i..], plusToSpace) == Decoded(url, plusToSpace)
    {
      DecodedStep(res, url, i, plusToSpace);
      if url[i] == '+' && plusToSpace {
        res := res + " ";
      } else if url[i] == '%' {
        if i + 2 < |url| {
          var hi, lo := Hextoi(url[i + 1]), Hextoi(url[i + 2]);
          if hi != -1 && lo != -1 {
            res := res + [JoinNibbles(hi, lo)];
            i := i + 3;
            continue;
          }
        }
      }
      res := res + [url[i]];
      i := i + 1;
    }
  }

  // ---- when decoding undoes encoding ----

  /** Bytes 0 to 127 survive the plain-char formatting, and so does 255, whose escape is right by
      accident.  A space does not survive when it is written as a plus sign. */
  predicate Survives(c: char, spaceToPlus: bool) {
    (c as int < 128 || c as int == 255) && !(c == ' ' && spaceToPlus)
  }

  predicate AllSurvive(s: string, spaceToPlus: bool) {
    forall i :: 0 <= i < |s| ==> Survives(s[i], spaceToPlus)
  }

  lemma {:induction false} OrEven(a: nat, b: nat, half: nat)
    requires half == b / 2 && BitOr(a, half) == a + half
    ensures BitOr(2 * a, b) == 2 * a + b
  {
  }

  lemma {:induction false} OrNibbles(hi: nat, lo: nat)
    requires lo < 16
    ensures BitOr(16 * hi, lo) == 16 * hi + lo
  {
    var b1, b2, b3 := lo / 2, lo / 4, lo / 8;
    assert BitOr(hi, 0) == hi;
    OrEven(hi, b3, 0);
    OrEven(2 * hi, b2, b3);
    OrEven(4 * hi, b1, b2);
    OrEven(8 * hi, lo, b1);
  }

  lemma {:induction false} JoinNibblesIsByte(hi: nat, lo: nat)
    requires hi < 16 && lo < 16
    ensures JoinNibbles(hi, lo) == (16 * hi + lo) as char
  {
    OrNibbles(hi, lo);
    SmallByte(16 * hi + lo);
  }

  lemma SmallByte(n: nat)
    requires n < 256
    ensures ByteOf(n) == n as char
  {
  }

  lemma HexDigitValue(v: nat)
    requires v < 16
    ensures Hextoi(HexDigit(v)) == v
  {
  }

  /** Exactly letters, digits and four marks are written as they are; any other byte becomes an escape of
      three characters, but for a space that is written as a plus sign. */
  lemma EncodeMeaning(c: char, spaceToPlus: bool)
    ensures EncodeByte(c, spaceToPlus) == [c] <==>
      'a' <= c <= 'z' || 'A' <= c <= 'Z' || '0' <= c <= '9' || c in {'-', '.', '_', '~'}
    ensures |EncodeByte(c, spaceToPlus)| == 1 || (|EncodeByte(c, spaceToPlus)| == 3 && EncodeByte(c, spaceToPlus)[0] == '%')
    ensures EncodeByte(c, spaceToPlus) == "+" <==> c == ' ' && spaceToPlus
  {
  }

  /** Both cases of a hexadecimal digit have its value; but every letter passes for a digit. */
  lemma HextoiMeaning(v: nat, c: char)
    requires v < 16
    ensures Hextoi("0123456789ABCDEF"[v]) == Hextoi("0123456789abcdef"[v]) == v
    ensures Hextoi(c) != -1 <==> '0' <= c <= '9' || 'A' <= c <= 'Z' || 'a' <= c <= 'z'
  {
  }

  /** So an escape in small letters, which a client may write, decodes to its byte as well. */
  lemma EscapeDecodes(hi: nat, lo: nat, rest: string, plusToSpace: bool)
    requires hi < 16 && lo < 16
    ensures Decoded(['%', "0123456789abcdef"[hi], "0123456789abcdef"[lo]] + rest, plusToSpace)
         == [(16 * hi + lo) as char] + Decoded(rest, plusToSpace)
  {
    var url := ['%', "0123456789abcdef"[hi], "0123456789abcdef"[lo]] + rest;
    HextoiMeaning(hi, 'a');
    HextoiMeaning(lo, 'a');
    JoinNibblesIsByte(hi, lo);
    assert url[3..] == rest && url[1] == "0123456789abcdef"[hi] && url[2] == "0123456789abcdef"[lo];
  }

  lemma DecodeSurvivor(c: char, rest: string, spaceToPlus: bool, plusToSpace: bool)
    requires Survives(c, spaceToPlus)
    ensures Decoded(EncodeByte(c, spaceToPlus) + rest, plusToSpace) == [c] + Decoded(rest, plusToSpace)
  {
    var code := EncodeByte(c, spaceToPlus);
    if IsUnreserved(c) {
      assert (code + rest)[1..] == rest;
    } else {
      var hi, lo := c as int / 16, c as int % 16;
      HexDigitValue(hi);
      HexDigitValue(lo);
      JoinNibblesIsByte(hi, lo);
      assert code == ['%', HexDigit(hi), HexDigit(lo)];
      assert (code + rest)[3..] == rest;
    }
  }

  lemma DecodeLost(c: char, rest: string, spaceToPlus: bool, plusToSpace: bool)
    requires !Survives(c, spaceToPlus)
    ensures c == ' ' && plusToSpace ==>
      Decoded(EncodeByte(c, spaceToPlus) + rest, plusToSpace) == " +" + Decoded(rest, plusToSpace)
    ensures !(c == ' ' && plusToSpace) ==>
      var d := Decoded(EncodeByte(c, spaceToPlus) + rest, plusToSpace);
      d != [] && d[0] != c
  {
    var code := EncodeByte(c, spaceToPlus);
    if c == ' ' {
      assert (code + rest)[1..] == rest;
    } else {
      JoinNibblesIsByte(15, 15);
      assert (code + rest)[3..] == rest;
    }
  }

  lemma {:induction false} DecodedNotShorter(s: string, spaceToPlus: bool, plusToSpace: bool)
    ensures |Decoded(Encoded(s, spaceToPlus), plusToSpace)| >= |s|
  {
    if s != [] {
      var rest := Encoded(s[1..], spaceToPlus);
      DecodedNotShorter(s[1..], spaceToPlus, plusToSpace);
      if Survives(s[0], spaceToPlus) {
        DecodeSurvivor(s[0], rest, spaceToPlus, plusToSpace);
      } else {
        DecodeLost(s[0], rest, spaceToPlus, plusToSpace);
        assert s[0] != ' ' ==> (EncodeByte(s[0], spaceToPlus) + rest)[3..] == rest;
        assert s[0] == ' ' ==> (EncodeByte(s[0], spaceToPlus) + rest)[1..] == rest;
      }
    }
  }

  lemma SurvivorFirst(c: char, t: string, spaceToPlus: bool, plusToSpace: bool)
    requires Survives(c, spaceToPlus)
    ensures Decoded(Encoded([c] + t, spaceToPlus), plusToSpace) == [c] + Decoded(Encoded(t, spaceToPlus), plusToSpace)
  {
    assert ([c] + t)[1..] == t;
    DecodeSurvivor(c, Encoded(t, spaceToPlus), spaceToPlus, plusToSpace);
  }

  lemma LostFirst(c: char, t: string, spaceToPlus: bool, plusToSpace: bool)
    requires !Survives(c, spaceToPlus)
    ensures Decoded(Encoded([c] + t, spaceToPlus), plusToSpace) != [c] + t
  {
    assert ([c] + t)[1..] == t;
    DecodeLost(c, Encoded(t, spaceToPlus), spaceToPlus, plusToSpace);
    DecodedNotShorter(t, spaceToPlus, plusToSpace);
  }

  lemma AllSurviveFirst(c: char, t: string, spaceToPlus: bool)
    ensures AllSurvive([c] + t, spaceToPlus) <==> Survives(c, spaceToPlus) && AllSurvive(t, spaceToPlus)
  {
    var s := [c] + t;
    assert s[0] == c && s[1..] == t;
    assert forall i :: 0 <= i < |t| ==> t[i] == s[i + 1];
    assert forall i :: 0 < i < |s| ==> s[i] == t[i - 1];
  }

  /** UrlDecode undoes UrlEncode exactly on the strings all of whose bytes survive: ASCII and 255,
      without spaces when spaces are written as plus signs.  How plus signs are decoded is
      irrelevant: neither setting brings a plus sign back to a single space. */
  lemma {:induction false} UrlRoundTrip(s: string, spaceToPlus: bool, plusToSpace: bool)
    ensures Decoded(Encoded(s, spaceToPlus), plusToSpace) == s <==> AllSurvive(s, spaceToPlus)
  {
    if s != [] {
      var c, t := s[0], s[1..];
      assert s == [c] + t;
      UrlRoundTrip(t, spaceToPlus, plusToSpace);
      AllSurviveFirst(c, t, spaceToPlus);
      if Survives(c, spaceToPlus) {
        SurvivorFirst(c, t, spaceToPlus, plusToSpace);
      } else {
        LostFirst(c, t, spaceToPlus, plusToSpace);
      }
    }
  }

  /** The comment above UrlEncode promises that decoding reverses the plus sign; it does not. */
  lemma PlusIsNotReversed()
    ensures Encoded("a b", true) == "a+b"
    ensures Decoded("a+b", true) == "a +b"
  {
    assert "a b"[1..] == " b" && " b"[1..] == "b" && "b"[1..] == "";
    assert "a+b"[1..] == "+b" && "+b"[1..] == "b";
  }

  /** Encoded text has none of the bytes that separate the parts of a query string. */
  lemma {:induction false} EncodedHasNoSeparator(s: string, spaceToPlus: bool, c: char)
    requires c == '&' || c == '=' || c == '?' || c == ' ' || c == '\n' || c == '\r'
    ensures c !in Encoded(s, spaceToPlus)
  {
    if s != [] {
      EncodedHasNoSeparator(s[1..], spaceToPlus, c);
    }
  }

  // ---- splitting ----

  /** What lies between two separators, if anything does. */
  function Stretch(src: string, offset: nat, pos: nat): seq<string>
    requires pos <= |src|
  {
    if pos > offset then [src[offset..pos]] else []
  }

  /** The non-empty stretches of `src[offset..]` between occurrences of `sep`. */
  function Pieces(src: string, sep: string, offset: nat): seq<string>
    requires |sep| > 0
    decreases |src| - offset
  {
    if offset >= |src| then []
    else match Find(src, sep, offset)
      case None => [src[offset..]]
      case Some(pos) => Stretch(src, offset, pos) + Pieces(src, sep, pos + |sep|)
  }

  /** What was split off so far, and what the rest still yields. */
  ghost predicate SplitSoFar(src: string, sep: string, offset: nat, pieces: seq<string>, whole: seq<string>)
    requires |sep| > 0
  {
    pieces + Pieces(src, sep, offset) == whole
  }

  lemma Regroup<T>(before: seq<T>, first: seq<T>, rest: seq<T>)
    ensures before + (first + rest) == (before + first) + rest
  {
  }

  lemma SplitGoesOn(src: string, sep: string, offset: nat, pos: nat, pieces: seq<string>, whole: seq<string>)
    requires |sep| > 0 && offset < |src| && Find(src, sep, offset) == Some(pos)
    requires SplitSoFar(src, sep, offset, pieces, whole)
    ensures SplitSoFar(src, sep, pos + |sep|, pieces + Stretch(src, offset, pos), whole)
  {
    PiecesFirst(src, sep, offset);
    Regroup(pieces, Stretch(src, offset, pos), Pieces(src, sep, pos + |sep|));
  }

  lemma SplitEnds(src: string, sep: string, offset: nat, pieces: seq<string>, whole: seq<string>)
    requires |sep| > 0 && SplitSoFar(src, sep, offset, pieces, whole)
    ensures offset >= |src| ==> pieces == whole
    ensures offset < |src| && Find(src, sep, offset) == None ==> pieces + [src[offset..]] == whole
  {
  }

  method Split(src: string, sep: string) returns (pieces: seq<string>)
    requires |sep| > 0
    ensures pieces == Pieces(src, sep, 0)
  {
    pieces := [];
    var offset := 0;
    ghost var whole := Pieces(src, sep, 0);
    while offset < |src|
      invariant SplitSoFar(src, sep, offset, pieces, whole)
      decreases |src| - offset
    {
      var pos := Find(src, sep, offset);
      if pos.None? {
        SplitEnds(src, sep, offset, pieces, whole);
        pieces := pieces + [src[offset..]];
        return;
      }
      SplitGoesOn(src, sep, offset, pos.value, pieces, whole);
      if pos.value > offset {
        pieces := pieces + [src[offset..pos.value]];
      } else {
        assert pieces + [] == pieces;
      }
      offset := pos.value + |sep|;
    }
    SplitEnds(src, sep, offset, pieces, whole);
  }

  lemma {:induction false} PiecesFirst(src: string, sep: string, offset: nat)
    requires |sep| > 0 && offset < |src|
    ensures match Find(src, sep, offset)
      case None => Pieces(src, sep, offset) == [src[offset..]]
      case Some(pos) =>
        Pieces(src, sep, offset)
        == Stretch(src, offset, pos) + Pieces(src, sep, pos + |sep|)
  {
  }

  ghost predicate IsClean(piece: string, sep: string) {
    piece != [] && forall j :: !OccursAt(piece, sep, j)
  }

  lemma StretchIsClean(src: string, sep: string, lo: nat, hi: nat)
    requires lo < hi <= |src|
    requires forall j :: lo <= j && j + |sep| <= hi ==> !OccursAt(src, sep, j)
    ensures IsClean(src[lo..hi], sep)
  {
    forall j
      ensures !OccursAt(src[lo..hi], sep, j)
    {
      assert !OccursAt(src, sep, lo + j) || j < 0 || lo + j + |sep| > hi;
    }
  }

  /** No piece is empty and no piece contains the separator. */
  lemma {:induction false} PiecesAreClean(src: string, sep: string, offset: nat)
    requires |sep| > 0
    ensures forall i :: 0 <= i < |Pieces(src, sep, offset)| ==> IsClean(Pieces(src, sep, offset)[i], sep)
    decreases |src| - offset
  {
    if offset < |src| {
      PiecesFirst(src, sep, offset);
      FindMeaning(src, sep, offset);
      match Find(src, sep, offset)
      case None =>
        StretchIsClean(src, sep, offset, |src|);
        assert src[offset..|src|] == src[offset..];
      case Some(pos) =>
        PiecesAreClean(src, sep, pos + |sep|);
        if pos > offset {
          StretchIsClean(src, sep, offset, pos);
        }
    }
  }

  function Join(pieces: seq<string>, c: char): string {
    if pieces == [] then []
    else if |pieces| == 1 then pieces[0]
    else pieces[0] + [c] + Join(pieces[1..], c)
  }

  function NonEmpty(pieces: seq<string>): seq<string> {
    if pieces == [] then []
    else (if pieces[0] == [] then [] else [pieces[0]]) + NonEmpty(pieces[1..])
  }

  lemma NonEmptyOne(head: string)
    ensures NonEmpty([head]) == if head == [] then [] else [head]
  {
    assert [head][1..] == [];
  }

  lemma OneByteOccurs(src: string, c: char, j: int)
    ensures OccursAt(src, [c], j) <==> 0 <= j < |src| && src[j] == c
  {
    assert [c][0] == c;
  }

  lemma {:induction false} FindAfterHead(src: string, from: nat, head: string, c: char, after: string)
    requires c !in head
    requires from <= |src| && src[from..] == head + [c] + after
    ensures Find(src, [c], from) == Some(from + |head|)
    ensures from + |head| < |src| && src[from..from + |head|] == head
  {
    var pos := from + |head|;
    assert src[from..][|head|] == src[pos];
    OneByteOccurs(src, c, pos);
    forall j | from <= j < pos
      ensures !OccursAt(src, [c], j)
    {
      assert src[j] == src[from..][j - from] == head[j - from];
      OneByteOccurs(src, c, j);
    }
    FindIs(src, [c], from, pos);
  }

  /** One joined part: the separator behind it is the first one found. */
  lemma {:induction false} PiecesAfterHead(src: string, from: nat, head: string, c: char, after: string)
    requires c !in head
    requires from <= |src| && src[from..] == head + [c] + after
    ensures Pieces(src, [c], from) == NonEmpty([head]) + Pieces(src, [c], from + |head| + 1)
  {
    FindAfterHead(src, from, head, c, after);
    PiecesFirst(src, [c], from);
    NonEmptyOne(head);
  }

  lemma {:induction false} PiecesOfLast(src: string, from: nat, head: string, c: char)
    requires c !in head
    requires from <= |src| && src[from..] == head
    ensures Pieces(src, [c], from) == NonEmpty([head])
  {
    forall j | from <= j
      ensures !OccursAt(src, [c], j)
    {
      OneByteOccurs(src, c, j);
      assert j < |src| ==> src[j] == src[from..][j - from];
    }
    FindMeaning(src, [c], from);
    NonEmptyOne(head);
  }

  lemma {:induction false} NonEmptyHead(pieces: seq<string>)
    requires pieces != []
    ensures NonEmpty(pieces) == NonEmpty([pieces[0]]) + NonEmpty(pieces[1..])
  {
    assert [pieces[0]][1..] == [];
  }

  lemma JoinUnfold(pieces: seq<string>, c: char)
    requires |pieces| > 1
    ensures Join(pieces, c) == pieces[0] + [c] + Join(pieces[1..], c)
  {
  }

  lemma JoinedTail(src: string, from: nat, pieces: seq<string>, c: char)
    requires |pieces| > 1 && from <= |src| && src[from..] == Join(pieces, c)
    ensures var next := from + |pieces[0]| + 1; next <= |src| && src[next..] == Join(pieces[1..], c)
  {
    assert src[from + |pieces[0]| + 1..] == src[from..][|pieces[0]| + 1..];
  }

  lemma SplitOne(src: string, from: nat, piece: string, c: char)
    requires c !in piece && from <= |src| && src[from..] == Join([piece], c)
    ensures Pieces(src, [c], from) == NonEmpty([piece])
  {
    PiecesOfLast(src, from, piece, c);
  }

  lemma HeadSplit(src: string, from: nat, head: string, c: char, after: string, rest: seq<string>)
    requires c !in head && from <= |src| && src[from..] == head + [c] + after
    requires from + |head| < |src| && Pieces(src, [c], from + |head| + 1) == rest
    ensures Pieces(src, [c], from) == NonEmpty([head]) + rest
  {
    PiecesAfterHead(src, from, head, c, after);
  }

  lemma JoinedHead(src: string, from: nat, pieces: seq<string>, c: char)
    requires |pieces| > 1 && from <= |src| && src[from..] == Join(pieces, c)
    ensures src[from..] == pieces[0] + [c] + Join(pieces[1..], c) && from + |pieces[0]| < |src|
  {
    JoinUnfold(pieces, c);
  }

  /** Splitting what was joined gives back the parts, less the empty ones. */
  lemma {:induction false} SplitJoin(src: string, from: nat, pieces: seq<string>, c: char)
    requires forall i :: 0 <= i < |pieces| ==> c !in pieces[i]
    requires from <= |src| && src[from..] == Join(pieces, c)
    ensures Pieces(src, [c], from) == NonEmpty(pieces)
    decreases |pieces|
  {
    if |pieces| == 0 {
    } else if |pieces| == 1 {
      assert pieces == [pieces[0]];
      SplitOne(src, from, pieces[0], c);
    } else {
      JoinedTail(src, from, pieces, c);
      JoinedHead(src, from, pieces, c);
      SplitJoin(src, from + |pieces[0]| + 1, pieces[1..], c);
      HeadSplit(src, from, pieces[0], c, Join(pieces[1..], c), NonEmpty(pieces[1..]));
      NonEmptyHead(pieces);
    }
  }
}
