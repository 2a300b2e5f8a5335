/** String helpers that the builder and the Work record rely on: PHP's
    `implode`, `explode`, `str_replace` (with an empty replacement), integer
    interpolation into strings, and Laravel's `Str::snake`, all over ASCII. */
module Text {

  /** PHP `implode(sep, parts)`. */
  function Join(parts: seq<string>, sep: string): string
    decreases |parts|
  {
    if |parts| == 0 then ""
    else if |parts| == 1 then parts[0]
    else parts[0] + sep + Join(parts[1..], sep)
  }

  /** Appending one more part adds exactly the separator and that part. */
  lemma {:induction false} JoinAppend(parts: seq<string>, sep: string, last: string)
    ensures Join(parts + [last], sep) == if parts == [] then last else Join(parts, sep) + sep + last
    decreases |parts|
  {
    if |parts| > 1 {
      assert (parts + [last])[1..] == parts[1..] + [last];
      JoinAppend(parts[1..], sep, last);
    } else if |parts| == 1 {
      assert (parts + [last])[1..] == [last];
    } else {
      assert parts + [last] == [last];
    }
  }

  /** PHP `explode(c, s)` for a one-character delimiter: never empty, and an
      empty piece wherever two delimiters meet or at an end. */
  function Split(s: string, c: char): (pieces: seq<string>)
    ensures |pieces| >= 1
    ensures forall i :: 0 <= i < |pieces| ==> c !in pieces[i]
    decreases |s|
  {
    if |s| == 0 then [""]
    else
      var tail := Split(s[1..], c);
      if s[0] == c then [""] + tail
      else [[s[0]] + tail[0]] + tail[1..]
  }

  /** Splitting on a character and joining back with it restores the string. */
  lemma {:induction false} JoinSplit(s: string, c: char)
    ensures Join(Split(s, c), [c]) == s
    decreases |s|
  {
    if |s| > 0 {
      var tail := Split(s[1..], c);
      JoinSplit(s[1..], c);
      if s[0] == c {
        assert ([""] + tail)[1..] == tail;
      } else if |tail| > 1 {
        assert ([[s[0]] + tail[0]] + tail[1..])[1..] == tail[1..];
      }
    }
  }

  /** Joining pieces that do not contain the delimiter and splitting again
      gives the pieces back. */
  lemma {:induction false} SplitJoin(pieces: seq<string>, c: char)
    requires |pieces| >= 1
    requires forall i :: 0 <= i < |pieces| ==> c !in pieces[i]
    ensures Split(Join(pieces, [c]), c) == pieces
    decreases |pieces|
  {
    if |pieces| == 1 {
      SplitWithout(pieces[0], c);
    } else {
      SplitJoin(pieces[1..], c);
      SplitAfterPiece(pieces[0], Join(pieces[1..], [c]), c);
      assert [pieces[0]] + pieces[1..] == pieces;
    }
  }

  lemma {:induction false} SplitWithout(s: string, c: char)
    requires c !in s
    ensures Split(s, c) == [s]
    decreases |s|
  {
    if |s| > 0 {
      SplitWithout(s[1..], c);
      assert [s[0]] + s[1..] == s;
    }
  }

  lemma {:induction false} SplitAfterPiece(a: string, rest: string, c: char)
    requires c !in a
    ensures Split(a + [c] + rest, c) == [a] + Split(rest, c)
    decreases |a|
  {
    var s := a + [c] + rest;
    if |a| == 0 {
      assert s[1..] == rest;
    } else {
      assert s[1..] == a[1..] + [c] + rest;
      SplitAfterPiece(a[1..], rest, c);
      assert [a[0]] + a[1..] == a;
    }
  }

  /** `end(explode(' ', name))`: the last space-separated token of a name.
      It holds no space, it ends the name, and it is either the whole name
      or preceded by a space. */
  function LastToken(s: string): (token: string)
    ensures ' ' !in token
    ensures |token| <= |s| && s[|s| - |token|..] == token
    ensures |token| == |s| || s[|s| - |token| - 1] == ' '
  {
    var pieces := Split(s, ' ');
    LastPieceIsSuffix(s, ' ');
    pieces[|pieces| - 1]
  }

  lemma {:induction false} LastPieceIsSuffix(s: string, c: char)
    ensures var pieces := Split(s, c);
      var last := pieces[|pieces| - 1];
      |last| <= |s| && s[|s| - |last|..] == last && (|last| == |s| || s[|s| - |last| - 1] == c)
  {
    if c !in s {
      SplitWithout(s, c);
    } else {
      var j := LastDelimiter(s, c);
      var after := s[j + 1..];
      SplitAround(s[..j], after, c);
      assert s == s[..j] + [c] + after;
      SplitWithout(after, c);
    }
  }

  /** A name without a space is its own last token. */
  lemma LastTokenWhole(s: string)
    requires ' ' !in s
    ensures LastToken(s) == s
  {
    var t := LastToken(s);
    if |t| < |s| {
      assert false;
    }
  }

  /** After the last space of a name comes its last token. */
  lemma LastTokenAfterSpace(a: string, b: string)
    requires ' ' !in b
    ensures LastToken(a + " " + b) == b
  {
    var s := a + " " + b;
    var t := LastToken(s);
    assert s[|a|] == ' ';
    assert forall k :: |a| < k < |s| ==> s[k] == b[k - |a| - 1];
    assert s[|s| - |b|..] == b;
  }

  /** Where the delimiter stands, the pieces of the two sides are simply put together. */
  lemma {:induction false} SplitAround(x: string, y: string, c: char)
    ensures Split(x + [c] + y, c) == Split(x, c) + Split(y, c)
    decreases |x|
  {
    var s := x + [c] + y;
    if |x| == 0 {
      assert s[1..] == y;
    } else {
      assert s[1..] == x[1..] + [c] + y;
      SplitAround(x[1..], y, c);
    }
  }

  lemma {:induction false} LastDelimiter(s: string, c: char) returns (j: nat)
    requires c in s
    ensures j < |s| && s[j] == c && c !in s[j + 1..]
    decreases |s|
  {
    if s[|s| - 1] == c {
      j := |s| - 1;
    } else {
      var p := s[..|s| - 1];
      assert c in p by {
        var k :| 0 <= k < |s| && s[k] == c;
        assert p[k] == c;
      }
      j := LastDelimiter(p, c);
      assert s[j + 1..] == p[j + 1..] + [s[|s| - 1]];
    }
  }

  /** True when `pat` occurs somewhere in `s`. */
  predicate Occurs(pat: string, s: string)
    decreases |s|
  {
    |pat| <= |s| && (s[..|pat|] == pat || (|s| > 0 && Occurs(pat, s[1..])))
  }

  /** A pattern whose first character the string lacks does not occur in it. */
  lemma {:induction false} OccursNotFirst(pat: string, s: string)
    requires pat != [] && pat[0] !in s
    ensures !Occurs(pat, s)
    decreases |s|
  {
    if |pat| <= |s| {
      assert s[..|pat|][0] == s[0];
      OccursNotFirst(pat, s[1..]);
    }
  }

  /** PHP `str_replace(pat, '', s)`: deletes the occurrences of `pat` found
      scanning left to right, without rescanning what a deletion brings
      together. The result never grows. */
  function RemoveAll(s: string, pat: string): (r: string)
    requires pat != []
    ensures |r| <= |s|
    decreases |s|
  {
    if |s| < |pat| then s
    else if s[..|pat|] == pat then RemoveAll(s[|pat|..], pat)
    else [s[0]] + RemoveAll(s[1..], pat)
  }

  /** A string without an occurrence of the pattern is left unchanged. */
  lemma {:induction false} RemoveAllAbsent(s: string, pat: string)
    requires pat != [] && !Occurs(pat, s)
    ensures RemoveAll(s, pat) == s
    decreases |s|
  {
    if |s| >= |pat| {
      RemoveAllAbsent(s[1..], pat);
      assert [s[0]] + s[1..] == s;
    }
  }

  /** The pieces of a string put back together, with nothing between them. */
  function Concat(pieces: seq<string>): string
    decreases |pieces|
  {
    if pieces == [] then "" else pieces[0] + Concat(pieces[1..])
  }

  /** Text that cannot start an occurrence is kept, and the occurrence after
      it is removed. */
  lemma {:induction false} RemoveAfter(a: string, pat: string, b: string)
    requires pat != [] && pat[0] !in a
    ensures RemoveAll(a + pat + b, pat) == a + RemoveAll(b, pat)
    decreases |a|
  {
    var s := a + pat + b;
    if a == [] {
      assert s == pat + b;
      assert s[..|pat|] == pat && s[|pat|..] == b;
    } else {
      var rest := a[1..] + pat + b;
      assert s == [a[0]] + rest;
      assert s[..|pat|] != pat by {
        assert s[..|pat|][0] == a[0] && a[0] != pat[0];
      }
      assert RemoveAll(s, pat) == [a[0]] + RemoveAll(rest, pat);
      RemoveAfter(a[1..], pat, b);
      ConsRest(a, RemoveAll(b, pat));
    }
  }

  lemma ConsRest(a: string, r: string)
    requires a != []
    ensures [a[0]] + (a[1..] + r) == a + r
  {
  }

  /** `str_replace` removes every occurrence: pieces that cannot start an
      occurrence, joined by the pattern, lose every copy of the pattern and
      nothing else. */
  lemma {:induction false} RemoveAllJoin(pieces: seq<string>, pat: string)
    requires pat != [] && |pieces| >= 1
    requires forall i :: 0 <= i < |pieces| ==> pat[0] !in pieces[i]
    ensures RemoveAll(Join(pieces, pat), pat) == Concat(pieces)
    decreases |pieces|
  {
    if |pieces| == 1 {
      OccursNotFirst(pat, pieces[0]);
      RemoveAllAbsent(pieces[0], pat);
      assert Concat(pieces[1..]) == "";
    } else {
      RemoveAllJoin(pieces[1..], pat);
      RemoveAfter(pieces[0], pat, Join(pieces[1..], pat));
    }
  }

  /** A leading occurrence is removed, and the rest is left as it was when it
      holds no further occurrence. */
  lemma RemoveLeading(pat: string, s: string)
    requires pat != [] && !Occurs(pat, s)
    ensures RemoveAll(pat + s, pat) == s
  {
    var t := pat + s;
    assert t[..|pat|] == pat && t[|pat|..] == s;
    RemoveAllAbsent(s, pat);
  }

  // ---------------------------------------------------------------------
  // Decimal rendering of integers, as PHP interpolates an `int` into a string.

  predicate IsDigit(c: char) { '0' <= c <= '9' }

  function DigitChar(d: nat): (c: char)
    requires d < 10
    ensures IsDigit(c)
  {
    ['0', '1', '2', '3', '4', '5', '6', '7', '8', '9'][d]
  }

  function DigitValue(c: char): (d: nat)
    requires IsDigit(c)
    ensures d < 10
  {
    (c as int - '0' as int) as nat
  }

  /** Decimal digits of `n`, without leading zeros. */
  function NatToString(n: nat): (r: string)
    ensures |r| >= 1
    ensures forall i :: 0 <= i < |r| ==> IsDigit(r[i])
    ensures r[0] == '0' ==> n == 0
    decreases n
  {
    if n < 10 then [DigitChar(n)] else NatToString(n / 10) + [DigitChar(n % 10)]
  }

  /** `"{$n}"` for a PHP integer. */
  function IntToString(i: int): (r: string)
    ensures |r| >= 1
    ensures i >= 0 <==> r[0] != '-'
    ensures i >= 0 ==> r == NatToString(i) && ParseNat(r) == i
    ensures i < 0 ==> r[1..] == NatToString(-i) && ParseNat(r[1..]) == -i
  {
    if i < 0 then
      ParseNatToString(-i);
      "-" + NatToString(-i)
    else
      ParseNatToString(i);
      NatToString(i)
  }

  /** Reads a string of decimal digits back as a number. */
  function ParseNat(s: string): nat
    requires forall i :: 0 <= i < |s| ==> IsDigit(s[i])
    decreases |s|
  {
    if |s| == 0 then 0 else ParseNat(s[..|s| - 1]) * 10 + DigitValue(s[|s| - 1])
  }

  /** The decimal rendering loses nothing: reading it back gives `n`. */
  lemma {:induction false} ParseNatToString(n: nat)
    ensures ParseNat(NatToString(n)) == n
    decreases n
  {
    var r := NatToString(n);
    if n >= 10 {
      ParseNatToString(n / 10);
      assert r[..|r| - 1] == NatToString(n / 10);
    }
  }

  // ---------------------------------------------------------------------
  // Laravel's Str::snake with the default `_` delimiter, over ASCII.

  predicate IsLower(c: char) { 'a' <= c <= 'z' }
  predicate IsUpper(c: char) { 'A' <= c <= 'Z' }
  /** The characters PHP's `ucwords` and the `\s` class treat as blanks. */
  predicate IsBlank(c: char) { c == ' ' || c == '\t' || c == '\n' || c == '\r' || c == '\U{000B}' || c == '\U{000C}' }

  function ToLower(c: char): (d: char)
    ensures !IsUpper(d)
  {
    if IsUpper(c) then (c as int + 32) as char else c
  }

  function ToUpper(c: char): char
  {
    if IsLower(c) then (c as int - 32) as char else c
  }

  /** `ctype_lower`: non-empty and made only of lower-case letters. */
  predicate AllLower(s: string)
  {
    |s| > 0 && forall i :: 0 <= i < |s| ==> IsLower(s[i])
  }

  function LowerAll(s: string): (r: string)
    ensures |r| == |s|
    ensures forall i :: 0 <= i < |s| ==> r[i] == ToLower(s[i])
  {
    seq(|s|, i requires 0 <= i < |s| => ToLower(s[i]))
  }

  /** `ucwords`: upper-cases the first character and every character that
      follows a blank. */
  function UcWords(s: string): (r: string)
    ensures |r| == |s|
    ensures forall i :: 0 <= i < |s| ==> r[i] == if i == 0 || IsBlank(s[i - 1]) then ToUpper(s[i]) else s[i]
  {
    seq(|s|, i requires 0 <= i < |s| => WordStartUpper(s, i))
  }

  /** The `i`-th character of `s`, upper-cased when it starts a word. */
  function WordStartUpper(s: string, i: nat): char
    requires i < |s|
  {
    if i == 0 || IsBlank(s[i - 1]) then ToUpper(s[i]) else s[i]
  }

  /** `preg_replace('/\s+/u', '', s)`: the result holds exactly the
      non-blank characters of `s`, and no more of them than `s` does. */
  function DropBlanks(s: string): (r: string)
    ensures forall i :: 0 <= i < |r| ==> !IsBlank(r[i])
    ensures forall c :: c in r <==> c in s && !IsBlank(c)
    ensures |r| <= |s|
    decreases |s|
  {
    if |s| == 0 then ""
    else if IsBlank(s[0]) then DropBlanks(s[1..])
    else [s[0]] + DropBlanks(s[1..])
  }

  /** Removing blanks works piece by piece, so the characters kept stay in
      their order: a blank disappears and any other character stays. */
  lemma {:induction false} DropBlanksConcat(a: string, b: string)
    ensures DropBlanks(a + b) == DropBlanks(a) + DropBlanks(b)
    ensures |a| == 1 ==> DropBlanks(a) == if IsBlank(a[0]) then "" else a
    decreases |a|
  {
    if |a| > 0 {
      assert (a + b)[0] == a[0] && (a + b)[1..] == a[1..] + b;
      DropBlanksConcat(a[1..], b);
      var head := if IsBlank(a[0]) then "" else [a[0]];
      assert DropBlanks(a + b) == head + DropBlanks(a[1..] + b);
      assert DropBlanks(a) == head + DropBlanks(a[1..]);
      Associates(head, DropBlanks(a[1..]), DropBlanks(b));
      if |a| == 1 {
        assert a[1..] == "";
        assert [a[0]] == a;
      }
    } else {
      assert a + b == b;
    }
  }

  lemma Associates(x: string, y: string, z: string)
    ensures x + (y + z) == x + y + z
  {
  }

  /** `preg_replace('/(.)(?=[A-Z])/u', '$1_', s)`: a `_` before every
      upper-case letter that is not the first character. */
  function MarkWords(s: string): string
    decreases |s|
  {
    if |s| <= 1 then s
    else if IsUpper(s[1]) then [s[0], '_'] + MarkWords(s[1..])
    else [s[0]] + MarkWords(s[1..])
  }

  /** `Str::snake(s)`. */
  function Snake(s: string): string
  {
    if AllLower(s) then s else LowerAll(MarkWords(DropBlanks(UcWords(s))))
  }

  /** The characters of `s` other than `_`. */
  function Unmarked(s: string): string
    decreases |s|
  {
    if |s| == 0 then "" else (if s[0] == '_' then "" else [s[0]]) + Unmarked(s[1..])
  }

  /** Snake-casing only lower-cases letters, drops blanks and inserts `_`
      separators: with the `_` taken out, both sides are the lower-cased,
      blank-free input; and no upper-case letter is left. */
  lemma SnakeOnlySeparates(s: string)
    ensures Unmarked(Snake(s)) == Unmarked(LowerAll(DropBlanks(s)))
    ensures forall i :: 0 <= i < |Snake(s)| ==> !IsUpper(Snake(s)[i])
  {
    if AllLower(s) {
      assert LowerAll(s) == s;
      NoBlanksInLower(s);
      assert DropBlanks(s) == s;
    } else {
      var u := UcWords(s);
      UnmarkedMarkWords(DropBlanks(u));
      UnmarkedLower(MarkWords(DropBlanks(u)));
      UnmarkedLower(DropBlanks(u));
      LowerUcWordsDropBlanks(s);
    }
  }

  lemma {:induction false} NoBlanksInLower(s: string)
    requires forall i :: 0 <= i < |s| ==> IsLower(s[i])
    ensures DropBlanks(s) == s
    decreases |s|
  {
    if |s| > 0 {
      NoBlanksInLower(s[1..]);
      assert [s[0]] + s[1..] == s;
    }
  }

  lemma {:induction false} UnmarkedMarkWords(s: string)
    ensures Unmarked(MarkWords(s)) == Unmarked(s)
    decreases |s|
  {
    if |s| > 1 {
      UnmarkedMarkWords(s[1..]);
      var rest := MarkWords(s[1..]);
      if IsUpper(s[1]) {
        assert ([s[0], '_'] + rest)[1..] == ['_'] + rest;
        assert (['_'] + rest)[1..] == rest;
      } else {
        assert ([s[0]] + rest)[1..] == rest;
      }
    }
  }

  /** Lower-casing and removing `_` commute. */
  lemma {:induction false} UnmarkedLower(s: string)
    ensures Unmarked(LowerAll(s)) == LowerAll(Unmarked(s))
    decreases |s|
  {
    if |s| > 0 {
      UnmarkedLower(s[1..]);
      assert LowerAll(s)[1..] == LowerAll(s[1..]);
      LowerAllConcat(if s[0] == '_' then "" else [s[0]], Unmarked(s[1..]));
    }
  }

  lemma LowerAllConcat(a: string, b: string)
    ensures LowerAll(a + b) == LowerAll(a) + LowerAll(b)
  {
  }

  /** Up-casing word starts is undone by lower-casing, position by position,
      and blanks stay where they were. */
  lemma LowerUcWordsDropBlanks(s: string)
    ensures LowerAll(DropBlanks(UcWords(s))) == LowerAll(DropBlanks(s))
  {
    var u := UcWords(s);
    forall i | 0 <= i < |s|
      ensures ToLower(u[i]) == ToLower(s[i]) && (IsBlank(u[i]) <==> IsBlank(s[i]))
    {
      LowerOfUpper(s[i]);
    }
    LowerDropBlanksPointwise(u, s);
  }

  lemma LowerOfUpper(c: char)
    ensures ToLower(ToUpper(c)) == ToLower(c)
    ensures IsBlank(ToUpper(c)) <==> IsBlank(c)
  {
  }

  lemma {:induction false} LowerDropBlanksPointwise(u: string, s: string)
    requires |u| == |s|
    requires forall i :: 0 <= i < |s| ==> ToLower(u[i]) == ToLower(s[i]) && (IsBlank(u[i]) <==> IsBlank(s[i]))
    ensures LowerAll(DropBlanks(u)) == LowerAll(DropBlanks(s))
    decreases |s|
  {
    if |s| > 0 {
      LowerDropBlanksPointwise(u[1..], s[1..]);
      if !IsBlank(s[0]) {
        LowerAllConcat([u[0]], DropBlanks(u[1..]));
        LowerAllConcat([s[0]], DropBlanks(s[1..]));
      }
    }
  }

  lemma {:induction false} DropBlanksNone(s: string)
    requires forall i :: 0 <= i < |s| ==> !IsBlank(s[i])
    ensures DropBlanks(s) == s
    decreases |s|
  {
    if |s| > 0 {
      DropBlanksNone(s[1..]);
      assert [s[0]] + s[1..] == s;
    }
  }

  lemma {:induction false} MarkWordsJoin(a: string, b: string)
    requires |a| >= 1 && |b| >= 1 && IsUpper(b[0])
    requires forall i :: 1 <= i < |a| ==> !IsUpper(a[i])
    ensures MarkWords(a + b) == a + "_" + MarkWords(b)
    decreases |a|
  {
    var s := a + b;
    assert s[1..] == a[1..] + b;
    if |a| > 1 {
      MarkWordsJoin(a[1..], b);
    }
  }

  lemma {:induction false} MarkWordsOneWord(s: string)
    requires forall i :: 1 <= i < |s| ==> !IsUpper(s[i])
    ensures MarkWords(s) == s
    decreases |s|
  {
    if |s| > 1 {
      MarkWordsOneWord(s[1..]);
    }
  }

  lemma UcWordsKeeps(s: string)
    requires |s| >= 1 && !IsLower(s[0])
    requires forall i :: 0 <= i < |s| ==> !IsBlank(s[i])
    ensures UcWords(s) == s
  {
  }

  lemma PublicationParts()
    ensures forall i :: 0 <= i < |"Publication"| ==> !IsBlank("Publication"[i])
    ensures forall i :: 1 <= i < |"Publication"| ==> !IsUpper("Publication"[i])
    ensures forall i :: 0 <= i < |"Year"| ==> !IsBlank("Year"[i])
    ensures forall i :: 1 <= i < |"Year"| ==> !IsUpper("Year"[i])
  {
  }

  lemma LowerPublicationYear()
    ensures LowerAll("Publication" + "_" + "Year") == "publication_year"
  {
    LowerAllConcat("Publication" + "_", "Year");
    LowerAllConcat("Publication", "_");
  }

  /** The dynamic `wherePublicationYear` call names the filter `publication_year`. */
  lemma SnakePublicationYear()
    ensures Snake("PublicationYear") == "publication_year"
  {
    var a, b := "Publication", "Year";
    var s := a + b;
    assert s == "PublicationYear";
    PublicationParts();
    assert !AllLower(s) by { assert !IsLower(s[0]); }
    assert forall i :: 0 <= i < |s| ==> !IsBlank(s[i]) by {
      assert forall i :: 0 <= i < |s| ==> s[i] == if i < |a| then a[i] else b[i - |a|];
    }
    UcWordsKeeps(s);
    DropBlanksNone(s);
    MarkWordsOneWord(b);
    MarkWordsJoin(a, b);
    LowerPublicationYear();
  }
}
