/** The `Work` record of the OpenAlex client and its two behaviours:
    rebuilding an abstract from its inverted index (`getAbstract`) and
    rendering a BibTeX entry (`toBibTeX`). */
module Works {
  import opened JsonValues
  import Text

  // ---------------------------------------------------------------------
  // Record shapes. The nested records keep their identifiers and the
  // fields the two behaviours read.

  datatype Source = Source(id: string, displayName: string)

  datatype Location = Location(landingPageUrl: Option<string>, source: Option<Source>)

  datatype Author = Author(id: string, displayName: string)

  datatype Authorship = Authorship(author: Author)

  /** One entry of `abstract_inverted_index`: a word and the positions at
      which it stands in the abstract. */
  datatype Posting = Posting(word: string, positions: seq<int>)

  /** A work. `authorships` and `referencedWorks` are `None` when the field
      was not supplied; `abstractIndex` keeps the postings in the order the
      index lists them. */
  datatype Work = Work(
    id: string,
    doi: Option<string>,
    displayName: string,
    publicationYear: int,
    kind: string,
    citedByCount: int,
    authorships: Option<seq<Authorship>>,
    primaryLocation: Option<Location>,
    referencedWorks: Option<seq<string>>,
    abstractIndex: Option<seq<Posting>>)

  // ---------------------------------------------------------------------
  // getAbstract: the specification.

  /** The position table after one word's positions have been written into
      it, one after the other. */
  function PlaceWord(placed: map<int, string>, word: string, positions: seq<int>): (r: map<int, string>)
    ensures forall p :: p in r <==> p in placed || p in positions
    ensures forall p :: p in positions ==> r[p] == word
    ensures forall p :: p in placed && p !in positions ==> r[p] == placed[p]
    decreases |positions|
  {
    if positions == [] then placed
    else PlaceWord(placed, word, positions[..|positions| - 1])[positions[|positions| - 1] := word]
  }

  /** The position table after the postings have been written into it in
      the order the index lists them. */
  function Placed(index: seq<Posting>): map<int, string>
    decreases |index|
  {
    if index == [] then map[]
    else
      var last := index[|index| - 1];
      PlaceWord(Placed(index[..|index| - 1]), last.word, last.positions)
  }

  /** Some posting of the index lists position `p`. */
  predicate Claimed(index: seq<Posting>, p: int)
  {
    exists i :: 0 <= i < |index| && p in index[i].positions
  }

  predicate Ascending(ks: seq<int>)
  {
    forall i, j :: 0 <= i < j < |ks| ==> ks[i] < ks[j]
  }

  /** `k` put at its place in an ascending sequence, unless already there. */
  function InsertKey(ks: seq<int>, k: int): (r: seq<int>)
    requires Ascending(ks)
    ensures Ascending(r)
    ensures forall x :: x in r <==> x in ks || x == k
    decreases |ks|
  {
    if ks == [] then [k]
    else if k < ks[0] then
      ConsAscending(k, ks);
      [k] + ks
    else if k == ks[0] then ks
    else
      var r := InsertKey(ks[1..], k);
      assert k in r && r[0] in r;
      assert ks == [ks[0]] + ks[1..];
      ConsAscending(ks[0], r);
      [ks[0]] + r
  }

  /** A key below the first one can go in front. */
  lemma ConsAscending(k: int, ks: seq<int>)
    requires Ascending(ks) && (ks == [] || k < ks[0])
    ensures Ascending([k] + ks)
  {
    var r := [k] + ks;
    forall i, j | 0 <= i < j < |r|
      ensures r[i] < r[j]
    {
      if i == 0 && j > 1 {
        assert r[j] == ks[j - 1] && ks[0] < ks[j - 1];
      }
    }
  }

  /** The distinct keys in ascending order: the key order `ksort` leaves. */
  function SortKeys(keys: seq<int>): (ks: seq<int>)
    ensures Ascending(ks)
    ensures forall k :: k in ks <==> k in keys
    decreases |keys|
  {
    if keys == [] then []
    else
      var front := keys[..|keys| - 1];
      assert forall k :: k in keys <==> k in front || k == keys[|keys| - 1] by {
        assert keys == front + [keys[|keys| - 1]];
      }
      InsertKey(SortKeys(front), keys[|keys| - 1])
  }

  /** Every position the index lists, posting after posting. */
  function AllPositions(index: seq<Posting>): seq<int>
    decreases |index|
  {
    if index == [] then []
    else AllPositions(index[..|index| - 1]) + index[|index| - 1].positions
  }

  /** The table holds exactly the positions the index lists. */
  lemma {:induction false} AllPositionsPlaced(index: seq<Posting>)
    ensures forall p :: p in AllPositions(index) <==> p in Placed(index)
    decreases |index|
  {
    if index != [] {
      AllPositionsPlaced(index[..|index| - 1]);
    }
  }

  /** The words found at the positions `ks`, in that order. */
  function Tokens(placed: map<int, string>, ks: seq<int>): seq<string>
    requires forall i :: 0 <= i < |ks| ==> ks[i] in placed
  {
    seq(|ks|, i requires 0 <= i < |ks| => placed[ks[i]])
  }

  /** The abstract an inverted index stands for: the word at each distinct
      position, by ascending position, separated by single spaces. */
  function Reconstruct(index: seq<Posting>): string
  {
    var ks := SortKeys(AllPositions(index));
    SortedPlaced(index, ks);
    Text.Join(Tokens(Placed(index), ks), " ")
  }

  /** Each sorted position has a word in the table. */
  lemma SortedPlaced(index: seq<Posting>, ks: seq<int>)
    requires ks == SortKeys(AllPositions(index))
    ensures forall i :: 0 <= i < |ks| ==> ks[i] in Placed(index)
  {
    AllPositionsPlaced(index);
    forall i | 0 <= i < |ks|
      ensures ks[i] in Placed(index)
    {
      assert ks[i] in ks;
    }
  }

  /** `getAbstract`: nothing when the work has no inverted index. */
  function AbstractOf(w: Work): Option<string>
  {
    match w.abstractIndex
    case None => None
    case Some(index) => Some(Reconstruct(index))
  }

  // ---------------------------------------------------------------------
  // getAbstract: the procedure.

  /** Reconstructs the abstract: writes every posting's word at each of its
      positions (a later write to the same position wins), orders the
      positions as `ksort` does, and joins the words with single spaces. */
  method GetAbstract(w: Work) returns (text: Option<string>)
    ensures text == AbstractOf(w)
  {
    if w.abstractIndex.None? {
      return None;
    }
    var index := w.abstractIndex.value;
    // PHP's ordered array: the table, and its keys in insertion order.
    var wordPositions: map<int, string> := map[];
    var order: seq<int> := [];
    var i := 0;
    while i < |index|
      invariant 0 <= i <= |index|
      invariant wordPositions == Placed(index[..i])
      invariant forall k :: k in order <==> k in wordPositions
    {
      var posting := index[i];
      var j := 0;
      while j < |posting.positions|
        invariant 0 <= j <= |posting.positions|
        invariant wordPositions == PlaceWord(Placed(index[..i]), posting.word, posting.positions[..j])
        invariant forall k :: k in order <==> k in wordPositions
      {
        var position := posting.positions[j];
        if position !in wordPositions {
          order := order + [position];
        }
        wordPositions := wordPositions[position := posting.word];
        assert posting.positions[..j + 1][..j] == posting.positions[..j];
        j := j + 1;
      }
      assert posting.positions[..j] == posting.positions;
      assert index[..i + 1][..i] == index[..i];
      i := i + 1;
    }
    assert index[..i] == index;
    var sorted := KeySort(order);
    AllPositionsPlaced(index);
    AscendingUnique(sorted, SortKeys(AllPositions(index)));
    text := Some(Text.Join(Tokens(wordPositions, sorted), " "));
  }

  /** `ksort` on the table's keys: an insertion sort that leaves them in
      ascending order, each once. */
  method KeySort(keys: seq<int>) returns (sorted: seq<int>)
    ensures Ascending(sorted)
    ensures forall k :: k in sorted <==> k in keys
  {
    sorted := [];
    var i := 0;
    while i < |keys|
      invariant 0 <= i <= |keys|
      invariant Ascending(sorted)
      invariant forall k :: k in sorted <==> k in keys[..i]
    {
      var key := keys[i];
      var j := 0;
      while j < |sorted| && sorted[j] < key
        invariant 0 <= j <= |sorted|
        invariant forall m :: 0 <= m < j ==> sorted[m] < key
      {
        j := j + 1;
      }
      if j == |sorted| || sorted[j] != key {
        InsertAscending(sorted, j, key);
        sorted := sorted[..j] + [key] + sorted[j..];
      }
      assert keys[..i + 1] == keys[..i] + [key];
      i := i + 1;
    }
    assert keys[..i] == keys;
  }

  /** Inserting a key between the smaller and the larger ones keeps the
      sequence ascending. */
  lemma InsertAscending(sorted: seq<int>, j: nat, key: int)
    requires Ascending(sorted) && j <= |sorted|
    requires forall m :: 0 <= m < j ==> sorted[m] < key
    requires j == |sorted| || key < sorted[j]
    ensures Ascending(sorted[..j] + [key] + sorted[j..])
  {
    var r := sorted[..j] + [key] + sorted[j..];
    forall a, b | 0 <= a < b < |r|
      ensures r[a] < r[b]
    {
      if b == j {
        assert r[a] == sorted[a];
      } else if a == j {
        assert r[b] == sorted[b - 1];
      } else if a < j && b > j {
        assert r[a] == sorted[a] && r[b] == sorted[b - 1];
      }
    }
  }

  /** Two ascending sequences with the same elements are the same sequence:
      `ksort` has only one possible outcome. */
  lemma {:induction false} AscendingUnique(a: seq<int>, b: seq<int>)
    requires Ascending(a) && Ascending(b)
    requires forall k :: k in a <==> k in b
    ensures a == b
    decreases |a|
  {
    if a != [] {
      assert a[0] in a;
    }
    if b != [] {
      assert b[0] in b;
    }
    if a != [] && b != [] {
      assert a[0] == b[0] by {
        assert b[0] in a && a[0] in b;
        var i :| 0 <= i < |a| && a[i] == b[0];
        var j :| 0 <= j < |b| && b[j] == a[0];
        assert a[0] <= a[i] && b[0] <= b[j];
      }
      forall k
        ensures k in a[1..] <==> k in b[1..]
      {
        if k in a[1..] {
          assert k in b && k != b[0];
        }
        if k in b[1..] {
          assert k in a && k != a[0];
        }
      }
      AscendingUnique(a[1..], b[1..]);
      assert a == [a[0]] + a[1..] && b == [b[0]] + b[1..];
    }
  }

  // ---------------------------------------------------------------------
  // getAbstract: properties.

  /** A position is in the table exactly when some posting lists it. */
  lemma {:induction false} PlacedIffClaimed(index: seq<Posting>, p: int)
    ensures p in Placed(index) <==> Claimed(index, p)
    decreases |index|
  {
    if index != [] {
      var front := index[..|index| - 1];
      PlacedIffClaimed(front, p);
      if Claimed(front, p) {
        var i :| 0 <= i < |front| && p in front[i].positions;
        assert index[i] == front[i];
      }
      if Claimed(index, p) && !Claimed(front, p) {
        var i :| 0 <= i < |index| && p in index[i].positions;
      }
    }
  }

  /** Every word in the table is the word of a posting: the one returned. */
  lemma {:induction false} PlacedFrom(index: seq<Posting>, p: int) returns (i: nat)
    requires p in Placed(index)
    ensures i < |index| && Placed(index)[p] == index[i].word
    decreases |index|
  {
    var front := index[..|index| - 1];
    if p in index[|index| - 1].positions {
      i := |index| - 1;
    } else {
      i := PlacedFrom(front, p);
      assert index[i] == front[i];
    }
  }

  /** A later posting wins: the word written at a position is the one of
      the last posting that lists it. */
  lemma {:induction false} LaterWins(index: seq<Posting>, i: nat, p: int)
    requires i < |index| && p in index[i].positions
    requires forall j :: i < j < |index| ==> p !in index[j].positions
    ensures p in Placed(index) && Placed(index)[p] == index[i].word
    decreases |index|
  {
    if i < |index| - 1 {
      var front := index[..|index| - 1];
      assert front[i] == index[i];
      forall j | i < j < |front|
        ensures p !in front[j].positions
      {
        assert front[j] == index[j];
      }
      LaterWins(front, i, p);
    }
  }

  /** One token per distinct position: when no word holds a space, the
      abstract splits on spaces into one token for each position the index
      lists, taken in ascending order of position, each the word the table
      holds there. Gaps between positions produce no empty tokens. */
  lemma OneTokenPerPosition(index: seq<Posting>)
    requires AllPositions(index) != []
    requires forall i :: 0 <= i < |index| ==> ' ' !in index[i].word
    ensures var placed := Placed(index);
      var ks := SortKeys(AllPositions(index));
      var tokens := Text.Split(Reconstruct(index), ' ');
      && (forall p :: p in ks <==> p in placed)
      && (forall p :: p in ks <==> Claimed(index, p))
      && |tokens| == |ks|
      && forall t :: 0 <= t < |tokens| ==> tokens[t] == placed[ks[t]]
  {
    var placed := Placed(index);
    var ks := SortKeys(AllPositions(index));
    AllPositionsPlaced(index);
    forall p
      ensures p in ks <==> Claimed(index, p)
    {
      PlacedIffClaimed(index, p);
    }
    assert AllPositions(index)[0] in placed;
    var words := Tokens(placed, ks);
    forall t | 0 <= t < |words|
      ensures ' ' !in words[t]
    {
      var i := PlacedFrom(index, ks[t]);
    }
    Text.SplitJoin(words, ' ');
  }

  /** Position `p` of `words` holds `word`. */
  predicate WordAt(words: seq<string>, p: int, word: string)
  {
    0 <= p < |words| && words[p] == word
  }

  /** `index` is an inverted index of `words`: its words are distinct, a
      posting lists only positions of `words` that hold its word, and every
      position of `words` is listed by the posting of the word there. */
  ghost predicate InvertedIndexOf(index: seq<Posting>, words: seq<string>)
  {
    && (forall i, j :: 0 <= i < j < |index| ==> index[i].word != index[j].word)
    && (forall i, p :: 0 <= i < |index| && p in index[i].positions ==> WordAt(words, p, index[i].word))
    && (forall p :: 0 <= p < |words| ==> Covered(index, words, p))
  }

  /** Position `p` of `words` is listed by a posting of the word there. */
  ghost predicate Covered(index: seq<Posting>, words: seq<string>, p: int)
    requires 0 <= p < |words|
  {
    exists i :: 0 <= i < |index| && index[i].word == words[p] && p in index[i].positions
  }

  /** Round trip: the inverted index of a word sequence, in any order of
      postings and positions, gives back the words separated by spaces. */
  lemma RoundTrip(index: seq<Posting>, words: seq<string>)
    requires InvertedIndexOf(index, words)
    ensures Reconstruct(index) == Text.Join(words, " ")
  {
    var placed := Placed(index);
    IndexPlaces(index, words);
    IndexWords(index, words);
    var range := seq(|words|, p requires 0 <= p < |words| => p);
    forall p
      ensures p in range <==> 0 <= p < |words|
    {
      if 0 <= p < |words| {
        assert range[p] == p;
      }
    }
    AllPositionsPlaced(index);
    AscendingUnique(range, SortKeys(AllPositions(index)));
    assert Tokens(placed, range) == words;
  }

  /** The table of an inverted index of `words` holds exactly the
      positions of `words`. */
  lemma IndexPlaces(index: seq<Posting>, words: seq<string>)
    requires InvertedIndexOf(index, words)
    ensures forall p :: p in Placed(index) <==> 0 <= p < |words|
  {
    forall p | p in Placed(index)
      ensures 0 <= p < |words|
    {
      PlacedIffClaimed(index, p);
      var i :| 0 <= i < |index| && p in index[i].positions;
    }
    forall p | 0 <= p < |words|
      ensures p in Placed(index)
    {
      assert Covered(index, words, p);
      var i :| 0 <= i < |index| && index[i].word == words[p] && p in index[i].positions;
      PlacedIffClaimed(index, p);
    }
  }

  /** The table of an inverted index of `words` holds at each position the
      word found there. */
  lemma IndexWords(index: seq<Posting>, words: seq<string>)
    requires InvertedIndexOf(index, words)
    ensures forall p :: 0 <= p < |words| ==> p in Placed(index) && Placed(index)[p] == words[p]
  {
    forall p | 0 <= p < |words|
      ensures p in Placed(index) && Placed(index)[p] == words[p]
    {
      assert Covered(index, words, p);
      var i :| 0 <= i < |index| && index[i].word == words[p] && p in index[i].positions;
      LaterWins(index, i, p);
    }
  }

  /** Two single-position postings: the words come out by position, with
      nothing for the gap between them, and the later one wins a shared
      position. */
  lemma TwoPostings(a: string, b: string, p: int, q: int)
    ensures Reconstruct([Posting(a, [p]), Posting(b, [q])])
         == if p < q then a + " " + b else if q < p then b + " " + a else b
  {
    var index := [Posting(a, [p]), Posting(b, [q])];
    TwoPostingsTable(a, b, p, q);
    SortTwo(p, q);
    var placed, ks := Placed(index), SortKeys([p, q]);
    SortedPlaced(index, ks);
    assert Reconstruct(index) == Text.Join(Tokens(placed, ks), " ");
    if p < q {
      TwoTokens(placed, p, q);
      JoinTwo(a, b);
    } else if q < p {
      TwoTokens(placed, q, p);
      JoinTwo(b, a);
    } else {
      assert Tokens(placed, [p]) == [b];
    }
  }

  lemma TwoTokens(placed: map<int, string>, p: int, q: int)
    requires p in placed && q in placed
    ensures Tokens(placed, [p, q]) == [placed[p], placed[q]]
  {
  }

  lemma SortTwo(p: int, q: int)
    ensures SortKeys([p, q]) == if p < q then [p, q] else if q < p then [q, p] else [p]
  {
    assert [p, q][..1] == [p] && [p][1..] == [];
    assert SortKeys([p]) == [p];
    assert InsertKey([], q) == [q];
    if p < q {
      assert InsertKey([p], q) == [p] + [q];
    }
  }

  /** The positions and the table of two single-position postings. */
  lemma TwoPostingsTable(a: string, b: string, p: int, q: int)
    ensures var index := [Posting(a, [p]), Posting(b, [q])];
      && AllPositions(index) == [p, q]
      && p in Placed(index) && q in Placed(index) && Placed(index)[q] == b
      && (p != q ==> Placed(index)[p] == a)
  {
    var index := [Posting(a, [p]), Posting(b, [q])];
    var first := index[..1];
    assert first == [Posting(a, [p])] && first[..0] == [];
    assert AllPositions(first) == [p];
    assert AllPositions(index) == [p, q];
    PlacedOne(a, p);
    assert Placed(index) == PlaceWord(Placed(first), b, [q]);
  }

  lemma PlacedOne(a: string, p: int)
    ensures p in Placed([Posting(a, [p])]) && Placed([Posting(a, [p])])[p] == a
  {
    var one := [Posting(a, [p])];
    assert one[..0] == [];
    assert Placed(one) == PlaceWord(map[], a, [p]);
  }

  lemma JoinTwo(a: string, b: string)
    ensures Text.Join([a, b], " ") == a + " " + b
  {
    assert [a, b][1..] == [b];
  }

  /** The inverted index that gives each word of `words` its own posting,
      holding its own position, in the order of the words. */
  function SequentialIndex(words: seq<string>): (index: seq<Posting>)
    ensures |index| == |words|
    ensures forall k :: 0 <= k < |words| ==> index[k] == Posting(words[k], [k])
  {
    seq(|words|, k requires 0 <= k < |words| => Posting(words[k], [k]))
  }

  /** Distinct words, each listed at its own position, read back as the
      words separated by spaces. */
  lemma Sequential(words: seq<string>)
    requires forall x, y :: 0 <= x < y < |words| ==> words[x] != words[y]
    ensures Reconstruct(SequentialIndex(words)) == Text.Join(words, " ")
  {
    SequentialInverted(words);
    RoundTrip(SequentialIndex(words), words);
  }

  lemma SequentialInverted(words: seq<string>)
    requires forall x, y :: 0 <= x < y < |words| ==> words[x] != words[y]
    ensures InvertedIndexOf(SequentialIndex(words), words)
  {
    var index := SequentialIndex(words);
    forall i, p | 0 <= i < |index| && p in index[i].positions
      ensures WordAt(words, p, index[i].word)
    {
      assert index[i].positions == [i];
    }
    forall p | 0 <= p < |words|
      ensures Covered(index, words, p)
    {
      assert index[p].word == words[p] && p in index[p].positions;
    }
  }

  lemma JoinFive(a: string, b: string, c: string, d: string, e: string)
    ensures Text.Join([a, b, c, d, e], " ") == a + " " + (b + " " + (c + " " + (d + " " + e)))
  {
    assert Text.Join([e], " ") == e;
    assert [d, e][1..] == [e];
    assert Text.Join([d, e], " ") == d + " " + e;
    assert [c, d, e][1..] == [d, e];
    assert Text.Join([c, d, e], " ") == c + " " + (d + " " + e);
    assert [b, c, d, e][1..] == [c, d, e];
    assert Text.Join([b, c, d, e], " ") == b + " " + (c + " " + (d + " " + e));
    assert [a, b, c, d, e][1..] == [b, c, d, e];
  }

  // ---------------------------------------------------------------------
  // toBibTeX.

  /** `$authorships`: an absent field reads as no authors. */
  function AuthorshipsOf(w: Work): seq<Authorship>
  {
    if w.authorships.Some? then w.authorships.value else []
  }

  function AuthorNames(authorships: seq<Authorship>): seq<string>
  {
    seq(|authorships|, i requires 0 <= i < |authorships| => authorships[i].author.displayName)
  }

  /** The author field: empty without authors, otherwise the display names
      joined by ` and `. */
  function AuthorList(w: Work): string
  {
    var authorships := AuthorshipsOf(w);
    if authorships == [] then "" else Text.Join(AuthorNames(authorships), " and ")
  }

  /** The last space-separated token of the first author's display name,
      or `Unknown` without authors. */
  function LastName(w: Work): (name: string)
    ensures ' ' !in name
  {
    var authorships := AuthorshipsOf(w);
    if authorships == [] then "Unknown" else Text.LastToken(authorships[0].author.displayName)
  }

  function CitationKey(w: Work): string
  {
    LastName(w) + Text.IntToString(w.publicationYear)
  }

  /** The primary location's source name, or `Unknown Journal` when the
      work has no primary location or the location has no source. */
  function Journal(w: Work): string
  {
    if w.primaryLocation.Some? && w.primaryLocation.value.source.Some?
    then w.primaryLocation.value.source.value.displayName
    else "Unknown Journal"
  }

  const DoiPrefix: string := "https://doi.org/"

  /** The DOI with every `https://doi.org/` taken out; empty without a DOI. */
  function DoiField(w: Work): string
  {
    Text.RemoveAll(if w.doi.Some? then w.doi.value else "", DoiPrefix)
  }

  /** The seven lines of the entry's template. */
  function BibLines(w: Work): seq<string>
  {
    [ "@article{" + CitationKey(w) + ",",
      "    author  = \"" + AuthorList(w) + "\",",
      "    title   = \"" + w.displayName + "\",",
      "    journal = \"" + Journal(w) + "\",",
      "    year    = \"" + Text.IntToString(w.publicationYear) + "\",",
      "    doi     = \"" + DoiField(w) + "\"",
      "}" ]
  }

  /** `toBibTeX`: the template's lines separated by newlines, with no
      trailing newline. */
  function ToBibTeX(w: Work): string
  {
    Text.Join(BibLines(w), "\n")
  }

  /** When no value holds a newline, the entry reads back as exactly its
      seven template lines: the key line, one line per field, and the
      closing brace. */
  lemma BibTeXLines(w: Work)
    requires forall i :: 0 <= i < |AuthorshipsOf(w)| ==> '\n' !in AuthorshipsOf(w)[i].author.displayName
    requires '\n' !in w.displayName && '\n' !in Journal(w) && '\n' !in DoiField(w)
    ensures Text.Split(ToBibTeX(w), '\n')
         == [ "@article{" + CitationKey(w) + ",",
              "    author  = \"" + AuthorList(w) + "\",",
              "    title   = \"" + w.displayName + "\",",
              "    journal = \"" + Journal(w) + "\",",
              "    year    = \"" + Text.IntToString(w.publicationYear) + "\",",
              "    doi     = \"" + DoiField(w) + "\"",
              "}" ]
  {
    var lines := BibLines(w);
    BibLinesSingle(w);
    forall i | 0 <= i < |lines|
      ensures '\n' !in lines[i]
    {
      if i == 0 {} else if i == 1 {} else if i == 2 {} else if i == 3 {} else if i == 4 {} else if i == 5 {}
    }
    Text.SplitJoin(lines, '\n');
  }

  /** No template line holds a newline when no value does. */
  lemma BibLinesSingle(w: Work)
    requires forall i :: 0 <= i < |AuthorshipsOf(w)| ==> '\n' !in AuthorshipsOf(w)[i].author.displayName
    requires '\n' !in w.displayName && '\n' !in Journal(w) && '\n' !in DoiField(w)
    ensures var lines := BibLines(w);
      && '\n' !in lines[0] && '\n' !in lines[1] && '\n' !in lines[2] && '\n' !in lines[3]
      && '\n' !in lines[4] && '\n' !in lines[5] && '\n' !in lines[6]
  {
    var authorships := AuthorshipsOf(w);
    if authorships != [] {
      NoNewlineInJoin(AuthorNames(authorships), " and ");
    }
    DigitsOnly(w.publicationYear);
    assert '\n' !in CitationKey(w);
    TemplateSingle(CitationKey(w), AuthorList(w), w.displayName, Journal(w),
                   Text.IntToString(w.publicationYear), DoiField(w));
  }

  lemma TemplateSingle(key: string, authors: string, title: string, journal: string, year: string, doi: string)
    requires '\n' !in key && '\n' !in authors && '\n' !in title
    requires '\n' !in journal && '\n' !in year && '\n' !in doi
    ensures '\n' !in "@article{" + key + ","
    ensures '\n' !in "    author  = \"" + authors + "\","
    ensures '\n' !in "    title   = \"" + title + "\","
    ensures '\n' !in "    journal = \"" + journal + "\","
    ensures '\n' !in "    year    = \"" + year + "\","
    ensures '\n' !in "    doi     = \"" + doi + "\""
    ensures '\n' !in "}"
  {
  }

  lemma {:induction false} NoNewlineInJoin(parts: seq<string>, sep: string)
    requires '\n' !in sep
    requires forall i :: 0 <= i < |parts| ==> '\n' !in parts[i]
    ensures '\n' !in Text.Join(parts, sep)
    decreases |parts|
  {
    if |parts| > 1 {
      NoNewlineInJoin(parts[1..], sep);
    }
  }

  lemma DigitsOnly(i: int)
    ensures '\n' !in Text.IntToString(i)
  {
    var r := Text.IntToString(i);
    forall k | 0 <= k < |r|
      ensures r[k] != '\n'
    {
      if i < 0 && k > 0 {
        assert r[k] == Text.NatToString(-i)[k - 1];
      }
    }
  }

  /** Adding an author at the end adds ` and ` and the name, or gives the
      name alone when there was no author before. */
  lemma AuthorListAdd(w: Work, a: Authorship)
    ensures AuthorList(w.(authorships := Some(AuthorshipsOf(w) + [a])))
         == if AuthorshipsOf(w) == [] then a.author.displayName
            else AuthorList(w) + " and " + a.author.displayName
  {
    var before := AuthorshipsOf(w);
    assert AuthorNames(before + [a]) == AuthorNames(before) + [a.author.displayName];
    Text.JoinAppend(AuthorNames(before), " and ", a.author.displayName);
  }

  /** The key of a work without authors, absent or empty, starts with
      `Unknown`. */
  lemma KeyWithoutAuthors(w: Work)
    requires AuthorshipsOf(w) == []
    ensures CitationKey(w) == "Unknown" + Text.IntToString(w.publicationYear)
    ensures AuthorList(w) == ""
  {
  }

  /** The key of a work whose first author is named `first last` starts
      with `last`; a one-word name is used whole. */
  lemma KeyFromFirstAuthor(w: Work, first: string, last: string)
    requires AuthorshipsOf(w) != [] && ' ' !in last
    requires AuthorshipsOf(w)[0].author.displayName in {first + " " + last, last}
    ensures CitationKey(w) == last + Text.IntToString(w.publicationYear)
  {
    if AuthorshipsOf(w)[0].author.displayName == last {
      Text.LastTokenWhole(last);
    } else {
      Text.LastTokenAfterSpace(first, last);
    }
  }

  /** The journal falls back to `Unknown Journal` exactly when there is no
      source to name, or the source is itself called that. */
  lemma JournalFallback(w: Work)
    ensures Journal(w) == "Unknown Journal"
        <==> w.primaryLocation.None? || w.primaryLocation.value.source.None?
             || w.primaryLocation.value.source.value.displayName == "Unknown Journal"
  {
  }

  /** A DOI given as a `https://doi.org/` link keeps only the part after
      the prefix; one without the prefix is kept whole; no DOI gives an
      empty field. */
  lemma DoiFieldCases(w: Work, rest: string)
    requires !Text.Occurs(DoiPrefix, rest)
    ensures w.doi == Some(DoiPrefix + rest) ==> DoiField(w) == rest
    ensures w.doi == Some(rest) ==> DoiField(w) == rest
    ensures w.doi == None ==> DoiField(w) == ""
  {
    Text.RemoveLeading(DoiPrefix, rest);
    Text.RemoveAllAbsent(rest, DoiPrefix);
  }

  // ---------------------------------------------------------------------
  // The test fixture.

  /** The fixture work: two authors, a journal, a DOI link and a five-word
      abstract. */
  function Fixture(): Work
  {
    Work(
      "https://openalex.org/W123",
      Some(DoiPrefix + "10.1234/j.test.2023"),
      "A Test Publication",
      2023,
      "journal-article",
      10,
      Some([Authorship(Author("A1", "John Doe")), Authorship(Author("A2", "Jane Smith"))]),
      Some(Location(Some("https://example.com"), Some(Source("S1", "Journal of Testing")))),
      Some([]),
      Some(SequentialIndex(FixtureWords())))
  }

  /** The fixture's abstract, one word per position from 0 to 4. */
  function FixtureWords(): seq<string>
  {
    ["This", "is", "a", "test", "abstract."]
  }

  lemma Year2023()
    ensures Text.IntToString(2023) == "2023"
  {
    assert Text.NatToString(2) == "2";
    assert Text.NatToString(20) == "20";
    assert Text.NatToString(202) == "202";
  }

  /** The fixture's abstract reads `This is a test abstract.`, and without
      an inverted index there is none. */
  lemma FixtureAbstract()
    ensures AbstractOf(Fixture()) == Some("This" + " " + ("is" + " " + ("a" + " " + ("test" + " " + "abstract."))))
    ensures AbstractOf(Fixture().(abstractIndex := None)) == None
  {
    var words := FixtureWords();
    assert forall x, y :: 0 <= x < y < |words| ==> words[x] != words[y] by {
      assert words == ["This", "is", "a", "test", "abstract."];
    }
    Sequential(words);
    JoinFive("This", "is", "a", "test", "abstract.");
  }

  /** The fixture's key is `Doe2023`: the first author is John Doe. */
  lemma FixtureKey()
    ensures CitationKey(Fixture()) == "Doe" + "2023"
  {
    Year2023();
    assert "John Doe" == "John" + " " + "Doe";
    KeyFromFirstAuthor(Fixture(), "John", "Doe");
  }

  /** The fixture's author field names both authors in order. */
  lemma FixtureAuthors()
    ensures AuthorList(Fixture()) == "John Doe" + " and " + "Jane Smith"
  {
    var names := AuthorNames(AuthorshipsOf(Fixture()));
    assert names == ["John Doe", "Jane Smith"];
    assert names[1..] == ["Jane Smith"];
  }

  /** The fixture's journal, year and DOI fields: the source's name, the
      year in decimal and the DOI without its link prefix. */
  lemma FixtureFields()
    ensures Journal(Fixture()) == "Journal of Testing"
    ensures Text.IntToString(Fixture().publicationYear) == "2023"
    ensures DoiField(Fixture()) == "10.1234/j.test.2023"
  {
    Year2023();
    DoiField1234();
    DoiFieldCases(Fixture(), "10.1234/j.test.2023");
  }

  lemma DoiField1234()
    ensures !Text.Occurs(DoiPrefix, "10.1234/j.test.2023")
  {
    Text.OccursNotFirst(DoiPrefix, "10.1234/j.test.2023");
  }

  /** Without authors the fixture's key is `Unknown2023` and its author
      field is empty. */
  lemma FixtureWithoutAuthors()
    ensures CitationKey(Fixture().(authorships := Some([]))) == "Unknown" + "2023"
    ensures AuthorList(Fixture().(authorships := Some([]))) == ""
  {
    Year2023();
    KeyWithoutAuthors(Fixture().(authorships := Some([])));
  }
}
