/**
 * JSON string arrays split across table properties.  A property's text is kept as the list it
 * encodes; enc gives the length of one element's encoding, brackets and commas are counted here.
 */
module ChunkCodec {
  import opened Decimals
  import opened Options

  const MAX_CHARS: nat := 30_000

  function Weight(xs: seq<string>, enc: string -> nat): nat {
    if xs == [] then 0 else 1 + enc(xs[0]) + Weight(xs[1..], enc)
  }

  /** len(json.dumps(xs)): brackets, elements, and a comma between neighbours. */
  function Length(xs: seq<string>, enc: string -> nat): nat {
    if xs == [] then 2 else 1 + Weight(xs, enc)
  }

  /** The texts one after another, with a comma between neighbours. */
  function Commas(texts: seq<string>): string {
    if |texts| == 0 then "" else if |texts| == 1 then texts[0] else texts[0] + "," + Commas(texts[1..])
  }

  /** json.dumps with compact separators, of elements whose texts are given. */
  function JsonArray(texts: seq<string>): string {
    "[" + Commas(texts) + "]"
  }

  /** Length is that of the text, whatever the elements are written as. */
  lemma LengthIsTheTexts(xs: seq<string>, text: string -> string)
    ensures Length(xs, x => |text(x)|) == |JsonArray(seq(|xs|, i requires 0 <= i < |xs| => text(xs[i])))|
  {
    if xs != [] { CommasWeigh(xs, text); }
  }

  lemma {:induction false} CommasWeigh(xs: seq<string>, text: string -> string)
    requires xs != []
    ensures Weight(xs, x => |text(x)|) == 1 + |Commas(seq(|xs|, i requires 0 <= i < |xs| => text(xs[i])))|
  {
    var texts := seq(|xs|, i requires 0 <= i < |xs| => text(xs[i]));
    var rest := seq(|xs| - 1, i requires 0 <= i < |xs| - 1 => text(xs[1..][i]));
    assert texts == [text(xs[0])] + rest && texts[1..] == rest;
    if |xs| > 1 { CommasWeigh(xs[1..], text); }
  }

  predicate Fits(chunk: seq<string>, enc: string -> nat, max: nat) {
    chunk != [] && (|chunk| == 1 || Length(chunk, enc) <= max)
  }

  function Flatten(chunks: seq<seq<string>>): seq<string> {
    if chunks == [] then [] else chunks[0] + Flatten(chunks[1..])
  }

  /** An order-preserving split whose chunks fit or cannot be made smaller. */
  ghost predicate IsSplit(chunks: seq<seq<string>>, xs: seq<string>, enc: string -> nat, max: nat) {
    Flatten(chunks) == xs && forall c | c in chunks :: Fits(c, enc, max)
  }

  method ChunkJsonArray(values: seq<string>, enc: string -> nat, max: nat) returns (chunks: seq<seq<string>>)
    ensures chunks == Greedy(values, enc, max)
    ensures IsSplit(chunks, values, enc, max)
    ensures forall other | IsSplit(other, values, enc, max) :: |chunks| <= |other|
  {
    chunks := [];
    var current: seq<string> := [];
    assert values[0..] == values && current + values[0..] == values;
    for i := 0 to |values|
      invariant chunks + Greedy(current + values[i..], enc, max) == Greedy(values, enc, max)
      invariant current != [] ==> Fits(current, enc, max)
    {
      var candidate := current + [values[i]];
      TakeNext(current, values, i);
      if current != [] && Length(candidate, enc) > max {
        CutHere(chunks, current, values[i..], enc, max);
        chunks := chunks + [current];
        current := [values[i]];
      } else {
        current := candidate;
      }
    }
    assert values[|values|..] == [] && current + [] == current;
    if current != [] {
      CutHere(chunks, current, [], enc, max);
      chunks := chunks + [current];
    }
    assert chunks + [] == chunks;
    GreedyIsBest(values, enc, max);
  }

  lemma TakeNext(current: seq<string>, values: seq<string>, i: nat)
    requires i < |values|
    ensures (current + [values[i]]) + values[i + 1..] == current + values[i..]
    ensures [values[i]] + values[i + 1..] == values[i..] && values[i..][0] == values[i]
  {
  }

  lemma CutHere(chunks: seq<seq<string>>, current: seq<string>, rest: seq<string>, enc: string -> nat, max: nat)
    requires current != [] && Fits(current, enc, max) && (rest != [] ==> Length(current + [rest[0]], enc) > max)
    ensures chunks + [current] + Greedy(rest, enc, max) == chunks + Greedy(current + rest, enc, max)
  {
    GreedyCuts(current, rest, enc, max);
  }

  lemma GreedyIsBest(values: seq<string>, enc: string -> nat, max: nat)
    ensures IsSplit(Greedy(values, enc, max), values, enc, max)
    ensures forall other | IsSplit(other, values, enc, max) :: |Greedy(values, enc, max)| <= |other|
  {
    GreedySplits(values, enc, max);
    forall other | IsSplit(other, values, enc, max) ensures |Greedy(values, enc, max)| <= |other| {
      GreedyIsFewest(other, values, enc, max);
    }
  }

  // ---- the greedy split ----

  /** How many elements the greedy chunk at the front takes, having taken k. */
  function Reach(xs: seq<string>, k: nat, enc: string -> nat, max: nat): (n: nat)
    requires k <= |xs|
    ensures k <= n <= |xs| && (k > 0 && Fits(xs[..k], enc, max) ==> Fits(xs[..n], enc, max))
    ensures k == 0 && xs != [] ==> n > 0 && Fits(xs[..n], enc, max)
    ensures n < |xs| ==> n > 0 && Length(xs[..n + 1], enc) > max
    decreases |xs| - k
  {
    if k < |xs| && (k == 0 || Length(xs[..k + 1], enc) <= max) then Reach(xs, k + 1, enc, max) else k
  }

  function Greedy(xs: seq<string>, enc: string -> nat, max: nat): seq<seq<string>>
    decreases |xs|
  {
    if xs == [] then []
    else
      var n := Reach(xs, 0, enc, max);
      [xs[..n]] + Greedy(xs[n..], enc, max)
  }

  lemma {:induction false} WeightOfPart(xs: seq<string>, i: nat, j: nat, enc: string -> nat)
    requires i <= j <= |xs|
    ensures Weight(xs[i..j], enc) <= Weight(xs, enc)
    decreases |xs|
  {
    if i < j {
      if i == 0 {
        WeightOfPart(xs[1..], 0, j - 1, enc);
        assert xs[0..j][1..] == xs[1..][0..j - 1];
      } else {
        WeightOfPart(xs[1..], i - 1, j - 1, enc);
        assert xs[i..j] == xs[1..][i - 1..j - 1];
      }
    }
  }

  /** A part of a chunk that fits, fits. */
  lemma PartFits(xs: seq<string>, i: nat, j: nat, enc: string -> nat, max: nat)
    requires Fits(xs, enc, max) && i < j <= |xs|
    ensures Fits(xs[i..j], enc, max)
  {
    WeightOfPart(xs, i, j, enc);
  }

  lemma PrefixFits(xs: seq<string>, n: nat, m: nat, enc: string -> nat, max: nat)
    requires 0 < m <= n <= |xs| && Fits(xs[..n], enc, max)
    ensures Fits(xs[..m], enc, max)
  {
    PartFits(xs[..n], 0, m, enc, max);
    assert xs[..n][0..m] == xs[..m];
  }

  /** No chunk that fits reaches further than the greedy one. */
  lemma ReachIsFurthest(xs: seq<string>, m: nat, enc: string -> nat, max: nat)
    requires m <= |xs| && Fits(xs[..m], enc, max)
    ensures m <= Reach(xs, 0, enc, max)
  {
    var n := Reach(xs, 0, enc, max);
    if n < m { PrefixFits(xs, m, n + 1, enc, max); }
  }

  /** A chunk that fits and cannot take the next element is the greedy chunk. */
  lemma GreedyCuts(current: seq<string>, rest: seq<string>, enc: string -> nat, max: nat)
    requires current != [] && Fits(current, enc, max)
    requires rest != [] ==> Length(current + [rest[0]], enc) > max
    ensures Greedy(current + rest, enc, max) == [current] + Greedy(rest, enc, max)
  {
    var xs := current + rest;
    assert xs[..|current|] == current;
    ReachIsFurthest(xs, |current|, enc, max);
    var n := Reach(xs, 0, enc, max);
    assert rest != [] ==> xs[..|current| + 1] == current + [rest[0]];
    if |current| < n { PrefixFits(xs, n, |current| + 1, enc, max); }
    assert xs[|current|..] == rest;
  }

  lemma {:induction false} GreedySplits(xs: seq<string>, enc: string -> nat, max: nat)
    ensures IsSplit(Greedy(xs, enc, max), xs, enc, max)
    decreases |xs|
  {
    if xs != [] {
      var n := Reach(xs, 0, enc, max);
      GreedySplits(xs[n..], enc, max);
      assert xs == xs[..n] + xs[n..];
    }
  }

  lemma TailOfPrefix(xs: seq<string>, k: nat, n: nat)
    requires k <= n <= |xs|
    ensures xs[..n][k..n] == xs[k..][..n - k]
  {
  }

  /** Where the greedy chunk at the front reaches past k, the one from k reaches at least as far. */
  lemma ReachFromSuffix(xs: seq<string>, k: nat, enc: string -> nat, max: nat)
    requires k < Reach(xs, 0, enc, max) && k < |xs|
    ensures Reach(xs, 0, enc, max) - k <= Reach(xs[k..], 0, enc, max)
  {
    var n := Reach(xs, 0, enc, max);
    PartFits(xs[..n], k, n, enc, max);
    TailOfPrefix(xs, k, n);
    ReachIsFurthest(xs[k..], n - k, enc, max);
  }

  lemma DropTwice(xs: seq<string>, a: nat, b: nat)
    requires a + b <= |xs|
    ensures xs[a..][b..] == xs[a + b..]
  {
  }

  lemma OneChunkOff(xs: seq<string>, enc: string -> nat, max: nat)
    requires xs != []
    ensures var n := Reach(xs, 0, enc, max);
      0 < n <= |xs| && |Greedy(xs, enc, max)| == 1 + |Greedy(xs[n..], enc, max)|
  {
  }

  /** The suffix starts after the first chunk: compare with what follows it. */
  lemma SuffixFromBeyond(xs: seq<string>, k: nat, n: nat, enc: string -> nat, max: nat)
    requires n <= k <= |xs| && |Greedy(xs, enc, max)| == 1 + |Greedy(xs[n..], enc, max)|
    requires |Greedy(xs[n..][k - n..], enc, max)| <= |Greedy(xs[n..], enc, max)|
    ensures |Greedy(xs[k..], enc, max)| <= |Greedy(xs, enc, max)|
  {
    DropTwice(xs, n, k - n);
  }

  /** A shorter suffix never needs more greedy chunks. */
  lemma {:induction false} SuffixNeedsNoMore(xs: seq<string>, k: nat, enc: string -> nat, max: nat)
    requires k <= |xs|
    ensures |Greedy(xs[k..], enc, max)| <= |Greedy(xs, enc, max)|
    decreases |xs|
  {
    if k < |xs| {
      OneChunkOff(xs, enc, max);
      var n := Reach(xs, 0, enc, max);
      if n <= k {
        SuffixNeedsNoMore(xs[n..], k - n, enc, max);
        SuffixFromBeyond(xs, k, n, enc, max);
      } else {
        var m := Reach(xs[k..], 0, enc, max);
        SuffixFromInside(xs, k, n, m, enc, max);
        SuffixNeedsNoMore(xs[n..], m - (n - k), enc, max);
      }
    }
  }

  lemma SameTail(xs: seq<string>, k: nat, n: nat, m: nat)
    requires k <= n <= |xs| && n - k <= m <= |xs| - k
    ensures xs[k..][m..] == xs[n..][m - (n - k)..]
  {
    DropTwice(xs, k, m);
    DropTwice(xs, n, m - (n - k));
  }

  /** From inside the first chunk: one chunk, then a suffix of what follows the first. */
  lemma SuffixFromInside(xs: seq<string>, k: nat, n: nat, m: nat, enc: string -> nat, max: nat)
    requires k < |xs| && n == Reach(xs, 0, enc, max) && k < n && m == Reach(xs[k..], 0, enc, max)
    ensures n - k <= m <= |xs| - k && |Greedy(xs[k..], enc, max)| == 1 + |Greedy(xs[n..][m - (n - k)..], enc, max)|
  {
    ReachFromSuffix(xs, k, enc, max);
    SameTail(xs, k, n, m);
    OneChunkOff(xs[k..], enc, max);
  }

  /** No split of the kind uses fewer chunks. */
  lemma {:induction false} GreedyIsFewest(other: seq<seq<string>>, xs: seq<string>, enc: string -> nat, max: nat)
    requires IsSplit(other, xs, enc, max)
    ensures |Greedy(xs, enc, max)| <= |other|
    decreases |other|
  {
    if other != [] {
      var c := other[0];
      assert xs[..|c|] == c && xs[|c|..] == Flatten(other[1..]);
      GreedyIsFewest(other[1..], xs[|c|..], enc, max);
      ReachIsFurthest(xs, |c|, enc, max);
      var n := Reach(xs, 0, enc, max);
      SuffixNeedsNoMore(xs[|c|..], n - |c|, enc, max);
      assert xs[|c|..][n - |c|..] == xs[n..];
    }
  }

  // ---- the properties of one entity ----

  datatype Property = Text(values: seq<string>) | Count(n: nat)

  /** legacy, count: whole property names; prefix: what the chunk numbers are appended to. */
  datatype Names = Names(legacy: string, prefix: string, count: string)

  function ChunkName(names: Names, index: nat): string {
    names.prefix + Dec(index, 3)
  }

  /** The count property is neither the legacy one nor a chunk's. */
  ghost predicate Apart(names: Names) {
    names.count != names.legacy && forall i: nat :: ChunkName(names, i) != names.count
  }

  /** Names in use end in letters, chunk names in a digit. */
  lemma LettersKeepApart(names: Names)
    requires names.count != names.legacy && names.count != [] && !('0' <= names.count[|names.count| - 1] <= '9')
    ensures Apart(names)
  {
    forall i: nat ensures ChunkName(names, i) != names.count { ChunkNamesEndInADigit(names, i); }
  }

  lemma ChunkNamesEndInADigit(names: Names, i: nat)
    ensures ChunkName(names, i) != [] && '0' <= ChunkName(names, i)[|ChunkName(names, i)| - 1] <= '9'
  {
    assert ChunkName(names, i)[|ChunkName(names, i)| - 1] == Dec(i, 3)[|Dec(i, 3)| - 1];
  }

  /** The subscriptions of a dataset's state record. */
  const SUBS := Names("Subs", "Subs", "SubsChunkCount")

  /** The event ids of a stored operation. */
  const ALL_EVENT_IDS := Names("AllEventIds", "AllEventIds", "AllEventIdsChunkCount")

  /** Both users of the codec name their properties so that it round-trips. */
  lemma NamesInUseAreApart()
    ensures Apart(SUBS) && Apart(ALL_EVENT_IDS)
  {
    LettersKeepApart(SUBS);
    LettersKeepApart(ALL_EVENT_IDS);
  }

  lemma ChunkNamesDiffer(names: Names, i: nat, j: nat)
    requires ChunkName(names, i) == ChunkName(names, j)
    ensures i == j
  {
    assert ChunkName(names, i)[|names.prefix|..] == Dec(i, 3);
    assert ChunkName(names, j)[|names.prefix|..] == Dec(j, 3);
    DecInjective(i, j, 3);
  }

  /** The chunk properties. */
  function ChunkMap(names: Names, chunks: seq<seq<string>>): map<string, Property> {
    if chunks == [] then map[]
    else
      var last := |chunks| - 1;
      ChunkMap(names, chunks[..last])[ChunkName(names, last) := Text(chunks[last])]
  }

  /** Each chunk is under its own number, and nothing else is there. */
  lemma {:induction false} ChunkMapHasTheChunks(names: Names, chunks: seq<seq<string>>)
    ensures forall i: nat | i < |chunks| ::
              && ChunkName(names, i) in ChunkMap(names, chunks)
              && ChunkMap(names, chunks)[ChunkName(names, i)] == Text(chunks[i])
    ensures forall name | name in ChunkMap(names, chunks) ::
              exists i: nat :: i < |chunks| && name == ChunkName(names, i)
  {
    if chunks != [] {
      var last := |chunks| - 1;
      ChunkMapHasTheChunks(names, chunks[..last]);
      forall i: nat | i < last ensures ChunkName(names, i) != ChunkName(names, last) {
        if ChunkName(names, i) == ChunkName(names, last) { ChunkNamesDiffer(names, i, last); }
      }
    }
  }

  /** The greedy chunks with their number, where one property is too short. */
  ghost predicate IsEncoding(properties: map<string, Property>, values: seq<string>, names: Names, enc: string -> nat) {
    properties ==
      if Length(values, enc) <= 30_000 then map[names.legacy := Text(values), names.count := Count(0)]
      else
        var chunks := Greedy(values, enc, 30_000);
        map[names.count := Count(|chunks|)] + ChunkMap(names, chunks)
  }

  /** Merged into any entity, the number and the chunks are all there. */
  lemma ChunksAreThere(entity: map<string, Property>, names: Names, chunks: seq<seq<string>>)
    requires Apart(names)
    ensures var after := entity + (map[names.count := Count(|chunks|)] + ChunkMap(names, chunks));
      && names.count in after && after[names.count] == Count(|chunks|)
      && Holds(after, names, chunks, |chunks|)
  {
    ChunkMapHasTheChunks(names, chunks);
    assert names.count !in ChunkMap(names, chunks);
  }

  lemma ChunksDecode(entity: map<string, Property>, values: seq<string>, names: Names, enc: string -> nat)
    requires Apart(names) && Length(values, enc) > MAX_CHARS
    ensures var chunks := Greedy(values, enc, MAX_CHARS);
      Decode(entity + (map[names.count := Count(|chunks|)] + ChunkMap(names, chunks)), names) == Some(values)
  {
    var chunks := Greedy(values, enc, MAX_CHARS);
    var after := entity + (map[names.count := Count(|chunks|)] + ChunkMap(names, chunks));
    GreedySplits(values, enc, MAX_CHARS);
    ChunksAreThere(entity, names, chunks);
    JoinIsFlatten(after, names, chunks, |chunks|);
    assert chunks[..|chunks|] == chunks;
  }

  lemma ChunksFit(values: seq<string>, names: Names, enc: string -> nat, name: string)
    requires name in ChunkMap(names, Greedy(values, enc, MAX_CHARS))
    ensures var p := ChunkMap(names, Greedy(values, enc, MAX_CHARS))[name];
      p.Text? && (|p.values| == 1 || Length(p.values, enc) <= MAX_CHARS)
  {
    var chunks := Greedy(values, enc, MAX_CHARS);
    GreedySplits(values, enc, MAX_CHARS);
    ChunkMapHasTheChunks(names, chunks);
    var i: nat :| i < |chunks| && name == ChunkName(names, i);
    assert chunks[i] in chunks;
  }

  lemma EncodingDecodes(properties: map<string, Property>, values: seq<string>, names: Names, enc: string -> nat)
    requires Apart(names) && IsEncoding(properties, values, names, enc)
    ensures forall entity: map<string, Property> :: Decode(entity + properties, names) == Some(values)
    ensures forall name | name in properties && properties[name].Text? ::
              |properties[name].values| == 1 || Length(properties[name].values, enc) <= MAX_CHARS
  {
    if Length(values, enc) > MAX_CHARS {
      forall entity: map<string, Property> ensures Decode(entity + properties, names) == Some(values) {
        ChunksDecode(entity, values, names, enc);
      }
      forall name | name in properties && properties[name].Text?
        ensures |properties[name].values| == 1 || Length(properties[name].values, enc) <= MAX_CHARS
      {
        assert name in ChunkMap(names, Greedy(values, enc, MAX_CHARS));
        ChunksFit(values, names, enc, name);
      }
    }
  }

  method EncodeProperties(values: seq<string>, names: Names, enc: string -> nat)
    returns (properties: map<string, Property>)
    requires Apart(names)
    ensures forall entity: map<string, Property> :: Decode(entity + properties, names) == Some(values)
    ensures forall name | name in properties && properties[name].Text? ::
              |properties[name].values| == 1 || Length(properties[name].values, enc) <= MAX_CHARS
    ensures IsEncoding(properties, values, names, enc)
  {
    if Length(values, enc) <= MAX_CHARS {
      properties := map[names.legacy := Text(values), names.count := Count(0)];
    } else {
      var chunks := ChunkJsonArray(values, enc, MAX_CHARS);
      properties := EncodeChunks(chunks, names);
    }
    EncodingDecodes(properties, values, names, enc);
  }

  method EncodeChunks(chunks: seq<seq<string>>, names: Names) returns (properties: map<string, Property>)
    ensures properties == map[names.count := Count(|chunks|)] + ChunkMap(names, chunks)
  {
    properties := map[names.count := Count(|chunks|)];
    for i := 0 to |chunks|
      invariant properties == map[names.count := Count(|chunks|)] + ChunkMap(names, chunks[..i])
    {
      assert chunks[..i + 1][..i] == chunks[..i];
      properties := properties[ChunkName(names, i) := Text(chunks[i])];
    }
    assert chunks[..|chunks|] == chunks;
  }

  ghost predicate Holds(entity: map<string, Property>, names: Names, chunks: seq<seq<string>>, n: nat)
    requires n <= |chunks|
  {
    forall j: nat | j < n :: ChunkName(names, j) in entity && entity[ChunkName(names, j)] == Text(chunks[j])
  }

  /** None: a property decoding needs is missing or of the wrong type, and the code raises. */
  function TextOf(entity: map<string, Property>, name: string): Option<seq<string>> {
    if name in entity && entity[name].Text? then Some(entity[name].values) else None
  }

  function Join(entity: map<string, Property>, names: Names, n: nat): Option<seq<string>> {
    if n == 0 then Some([])
    else
      match (Join(entity, names, n - 1), TextOf(entity, ChunkName(names, n - 1)))
      case (Some(before), Some(last)) => Some(before + last)
      case _ => None
  }

  function Decode(entity: map<string, Property>, names: Names): Option<seq<string>> {
    if names.count in entity && entity[names.count].Text? then None
    else if names.count in entity && entity[names.count].n > 0 then Join(entity, names, entity[names.count].n)
    else if names.legacy in entity then TextOf(entity, names.legacy)
    else Some([])
  }

  method DecodeProperties(entity: map<string, Property>, names: Names) returns (values: Option<seq<string>>)
    ensures values == Decode(entity, names)
  {
    if names.count in entity && entity[names.count].Text? { return None; }
    var count := if names.count in entity then entity[names.count].n else 0;
    if count == 0 {
      return if names.legacy in entity then TextOf(entity, names.legacy) else Some([]);
    }
    var joined: seq<string> := [];
    for index := 0 to count
      invariant Join(entity, names, index) == Some(joined)
    {
      var chunk := TextOf(entity, ChunkName(names, index));
      if chunk.None? {
        MissingChunkRaises(entity, names, index + 1, count);
        return None;
      }
      joined := joined + chunk.value;
    }
    return Some(joined);
  }

  lemma {:induction false} MissingChunkRaises(entity: map<string, Property>, names: Names, k: nat, n: nat)
    requires k <= n && Join(entity, names, k).None?
    ensures Join(entity, names, n).None?
  {
    if k < n { MissingChunkRaises(entity, names, k, n - 1); }
  }

  lemma {:induction false} JoinIsFlatten(entity: map<string, Property>, names: Names, chunks: seq<seq<string>>, n: nat)
    requires n <= |chunks| && Holds(entity, names, chunks, n)
    ensures Join(entity, names, n) == Some(Flatten(chunks[..n]))
  {
    if n > 0 {
      JoinIsFlatten(entity, names, chunks, n - 1);
      FlattenLast(chunks[..n - 1], chunks[n - 1]);
      assert chunks[..n] == chunks[..n - 1] + [chunks[n - 1]];
    }
  }

  lemma {:induction false} FlattenLast(chunks: seq<seq<string>>, last: seq<string>)
    ensures Flatten(chunks + [last]) == Flatten(chunks) + last
  {
    if chunks == [] {
      assert [] + [last] == [last];
    } else {
      FlattenLast(chunks[1..], last);
      assert (chunks + [last])[1..] == chunks[1..] + [last];
    }
  }
}
