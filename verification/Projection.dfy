/**
 * Projecting a source event: a recipe's dotted paths are resolved through the event's properties,
 * parsing JSON texts embedded on the way.  Resolution never raises for an absent segment; it does when
 * an embedded text nests deeper than the interpreter's recursion limit lets the JSON decoder go.
 */
module Projection {
  import opened Options
  import opened Text
  import Reconcile

  // ---- the JSON decoder, as far as nesting goes ----

  datatype Json = Null | Scalar(literal: string) | Str(value: string) | Arr(items: seq<Json>) |
      Obj(members: map<string, Json>)

  /**
   * limit: how many arrays and objects the decoder may have open before the interpreter raises
   * RecursionError; scalar reads one string, number or literal at the front of a text and says how
   * long it was.
   */
  datatype Decoder = Decoder(limit: nat, scalar: string -> Option<(Json, nat)>)

  /** TooDeep is RecursionError, which is no JSONDecodeError or ValueError; Invalid is. */
  datatype Read = Value(value: Json, rest: string) | Invalid | TooDeep

  function SkipSpace(s: string): (r: string)
    ensures |r| <= |s|
  {
    if s != [] && s[0] in {' ', '\t', '\n', '\r'} then SkipSpace(s[1..]) else s
  }

  /** The decoder passes over exactly the spaces, tabs and line ends in front of a value. */
  lemma {:induction false} BlanksArePassed(before: string, s: string)
    requires forall i | 0 <= i < |before| :: before[i] in {' ', '\t', '\n', '\r'}
    requires s != [] ==> s[0] !in {' ', '\t', '\n', '\r'}
    ensures SkipSpace(before + s) == s
  {
    if before == [] {
      assert before + s == s;
    } else {
      assert (before + s)[1..] == before[1..] + s;
      BlanksArePassed(before[1..], s);
    }
  }

  function ReadScalar(d: Decoder, s: string): (r: Read)
    ensures r.Value? ==> |r.rest| < |s|
    ensures !r.TooDeep?
  {
    match d.scalar(s)
    case None => Invalid
    case Some(found) => if 0 < found.1 <= |s| then Value(found.0, s[found.1..]) else Invalid
  }

  function ReadValue(d: Decoder, s: string, depth: nat): (r: Read)
    ensures r.Value? ==> |r.rest| < |s|
    decreases |s|, 0
  {
    if s == [] then Invalid
    else if s[0] in {'[', '{'} then
      if depth >= d.limit then TooDeep
      else
        var inside := SkipSpace(s[1..]);
        if s[0] == '[' then
          if inside != [] && inside[0] == ']' then Value(Arr([]), inside[1..]) else ReadItems(d, inside, depth + 1, [])
        else
          if inside != [] && inside[0] == '}' then Value(Obj(map[]), inside[1..])
              else ReadMembers(d, inside, depth + 1, map[])
    else ReadScalar(d, s)
  }

  function ReadItems(d: Decoder, s: string, depth: nat, items: seq<Json>): (r: Read)
    ensures r.Value? ==> |r.rest| < |s|
    decreases |s|, 1
  {
    match ReadValue(d, s, depth)
    case Value(item, rest) =>
      var next := SkipSpace(rest);
      if next == [] then Invalid
      else if next[0] == ']' then Value(Arr(items + [item]), next[1..])
      else if next[0] == ',' then ReadItems(d, SkipSpace(next[1..]), depth, items + [item])
      else Invalid
    case failed => failed
  }

  function ReadMembers(d: Decoder, s: string, depth: nat, members: map<string, Json>): (r: Read)
    ensures r.Value? ==> |r.rest| < |s|
    decreases |s|, 1
  {
    if s == [] || s[0] != '"' then Invalid
    else
      var key := ReadScalar(d, s);
      if !key.Value? || !key.value.Str? then Invalid
      else
        var colon := SkipSpace(key.rest);
        if colon == [] || colon[0] != ':' then Invalid
        else
          match ReadValue(d, SkipSpace(colon[1..]), depth)
          case Value(member, rest) =>
            var next := SkipSpace(rest);
            var grown := members[key.value.value := member];
            if next == [] then Invalid
            else if next[0] == '}' then Value(Obj(grown), next[1..])
            else if next[0] == ',' then ReadMembers(d, SkipSpace(next[1..]), depth, grown)
            else Invalid
          case failed => failed
  }

  /** json.loads: one value and nothing after it. */
  function Loads(d: Decoder, text: string): Read {
    match ReadValue(d, SkipSpace(text), 0)
    case Value(value, rest) => if SkipSpace(rest) == [] then Value(value, []) else Invalid
    case failed => failed
  }

  function Opening(n: nat): string {
    if n == 0 then [] else ['['] + Opening(n - 1)
  }

  /** More opening brackets than the limit raise, whatever follows them. */
  lemma {:induction false} ManyBracketsAreTooDeep(d: Decoder, n: nat, tail: string, depth: nat)
    requires depth <= d.limit < depth + n
    ensures ReadValue(d, Opening(n) + tail, depth).TooDeep?
  {
    var s := Opening(n) + tail;
    assert s[0] == '[' && s[1..] == Opening(n - 1) + tail;
    if depth < d.limit {
      ManyBracketsAreTooDeep(d, n - 1, tail, depth + 1);
      assert s[1..][0] == '[';
      assert SkipSpace(s[1..]) == s[1..];
    }
  }

  /** A text with no more characters than the limit never raises: each level takes a character. */
  lemma {:induction false} ShortTextIsNotTooDeep(d: Decoder, s: string, depth: nat)
    requires depth + |s| <= d.limit
    ensures !ReadValue(d, s, depth).TooDeep?
    decreases |s|, 0
  {
    if s != [] && s[0] in {'[', '{'} {
      var inside := SkipSpace(s[1..]);
      if s[0] == '[' {
        ShortItemsAreNotTooDeep(d, inside, depth + 1, []);
      } else {
        ShortMembersAreNotTooDeep(d, inside, depth + 1, map[]);
      }
    }
  }

  lemma {:induction false} ShortItemsAreNotTooDeep(d: Decoder, s: string, depth: nat, items: seq<Json>)
    requires depth + |s| <= d.limit
    ensures !ReadItems(d, s, depth, items).TooDeep?
    decreases |s|, 1
  {
    ShortTextIsNotTooDeep(d, s, depth);
    var r := ReadValue(d, s, depth);
    if r.Value? {
      var next := SkipSpace(r.rest);
      if next != [] && next[0] == ',' { ShortItemsAreNotTooDeep(d, SkipSpace(next[1..]), depth, items + [r.value]); }
    }
  }

  lemma {:induction false} ShortMembersAreNotTooDeep(d: Decoder, s: string, depth: nat, members: map<string, Json>)
    requires depth + |s| <= d.limit
    ensures !ReadMembers(d, s, depth, members).TooDeep?
    decreases |s|, 1
  {
    if s != [] && s[0] == '"' {
      var key := ReadScalar(d, s);
      if key.Value? && key.value.Str? {
        var colon := SkipSpace(key.rest);
        if colon != [] && colon[0] == ':' {
          var start := SkipSpace(colon[1..]);
          ShortTextIsNotTooDeep(d, start, depth);
          var r := ReadValue(d, start, depth);
          if r.Value? {
            var next := SkipSpace(r.rest);
            if next != [] && next[0] == ',' {
              ShortMembersAreNotTooDeep(d, SkipSpace(next[1..]), depth, members[key.value.value := r.value]);
            }
          }
        }
      }
    }
  }

  // ---- what the decoder reads ----

  /** A member of an object, or an item of an array, as it is written, and what the scalar reader makes of it. */
  datatype Written = Written(key: string, name: string, text: string, value: Json)

  /** Before what may follow them, the texts are read as the strings and scalars they are. */
  ghost predicate Readable(d: Decoder, w: Written) {
    && w.key != "" && w.key[0] == '"' && w.text != "" && w.text[0] !in {'[', '{', ' ', '\t', '\n', '\r'}
    && w.text[0] !in {']', '}'}
    && (forall rest | rest != "" && rest[0] == ':' :: d.scalar(w.key + rest) == Some((Str(w.name), |w.key|)))
    && (forall rest | rest != "" && rest[0] in {',', ']', '}'} :: d.scalar(w.text + rest) == Some((w.value, |w.text|)))
  }

  function Members(ws: seq<Written>): string
    requires ws != []
  {
    ws[0].key + ":" + ws[0].text + if |ws| == 1 then "}" else "," + Members(ws[1..])
  }

  function Items(ws: seq<Written>): string
    requires ws != []
  {
    ws[0].text + if |ws| == 1 then "]" else "," + Items(ws[1..])
  }

  function MemberMap(members: map<string, Json>, ws: seq<Written>): map<string, Json>
    decreases |ws|
  {
    if ws == [] then members else MemberMap(members[ws[0].name := ws[0].value], ws[1..])
  }

  function Values(ws: seq<Written>): seq<Json> {
    seq(|ws|, i requires 0 <= i < |ws| => ws[i].value)
  }

  lemma ScalarIsRead(d: Decoder, text: string, value: Json, rest: string, depth: nat)
    requires text != "" && text[0] !in {'[', '{'} && d.scalar(text + rest) == Some((value, |text|))
    ensures ReadValue(d, text + rest, depth) == Value(value, rest)
  {
    assert (text + rest)[0] == text[0] && (text + rest)[|text|..] == rest;
  }

  lemma KeyIsRead(d: Decoder, w: Written, colon: string)
    requires Readable(d, w) && colon != "" && colon[0] == ':'
    ensures (w.key + colon)[0] == '"' && ReadScalar(d, w.key + colon) == Value(Str(w.name), colon)
  {
    var s := w.key + colon;
    assert s[0] == w.key[0] && s[|w.key|..] == colon;
    assert d.scalar(s) == Some((Str(w.name), |w.key|));
  }

  lemma TextIsRead(d: Decoder, w: Written, tail: string, depth: nat)
    requires Readable(d, w) && tail != "" && tail[0] in {',', ']', '}'}
    ensures ReadValue(d, w.text + tail, depth) == Value(w.value, tail)
    ensures SkipSpace(w.text + tail) == w.text + tail && SkipSpace(tail) == tail
  {
    assert d.scalar(w.text + tail) == Some((w.value, |w.text|));
    ScalarIsRead(d, w.text, w.value, tail, depth);
    assert (w.text + tail)[0] == w.text[0];
  }

  lemma MembersStep(d: Decoder, s: string, name: string, colon: string, value: Json, tail: string, depth: nat,
      members: map<string, Json>)
    requires s != "" && s[0] == '"' && ReadScalar(d, s) == Value(Str(name), colon)
    requires colon != "" && colon[0] == ':' && ReadValue(d, SkipSpace(colon[1..]), depth) == Value(value, tail)
    requires tail != "" && tail[0] in {',', '}'}
    ensures ReadMembers(d, s, depth, members) ==
            if tail[0] == '}' then Value(Obj(members[name := value]), tail[1..])
            else ReadMembers(d, SkipSpace(tail[1..]), depth, members[name := value])
  {
    assert SkipSpace(colon) == colon && SkipSpace(tail) == tail;
  }

  /** One member, and what follows it. */
  lemma MemberIsRead(d: Decoder, w: Written, tail: string, depth: nat, members: map<string, Json>)
    requires Readable(d, w) && tail != "" && tail[0] in {',', '}'}
    ensures ReadMembers(d, w.key + (":" + (w.text + tail)), depth, members) ==
            if tail[0] == '}' then Value(Obj(members[w.name := w.value]), tail[1..])
            else ReadMembers(d, SkipSpace(tail[1..]), depth, members[w.name := w.value])
  {
    var body := w.text + tail;
    var colon := ":" + body;
    assert colon[0] == ':' && colon[1..] == body;
    KeyIsRead(d, w, colon);
    TextIsRead(d, w, tail, depth);
    MembersStep(d, w.key + colon, w.name, colon, w.value, tail, depth, members);
  }

  lemma ItemIsRead(d: Decoder, w: Written, tail: string, depth: nat, items: seq<Json>)
    requires Readable(d, w) && tail != "" && tail[0] in {',', ']'}
    ensures ReadItems(d, w.text + tail, depth, items) ==
            if tail[0] == ']' then Value(Arr(items + [w.value]), tail[1..])
            else ReadItems(d, SkipSpace(tail[1..]), depth, items + [w.value])
  {
    TextIsRead(d, w, tail, depth);
  }

  ghost predicate AllReadable(d: Decoder, ws: seq<Written>) {
    forall w | w in ws :: Readable(d, w)
  }

  lemma FirstAndRest(d: Decoder, ws: seq<Written>)
    requires ws != [] && AllReadable(d, ws)
    ensures Readable(d, ws[0]) && AllReadable(d, ws[1..])
  {
    assert ws[0] in ws && forall w | w in ws[1..] :: w in ws;
  }

  /** What follows the first member, or item. */
  function AfterFirst(ws: seq<Written>, rest: string, close: string, next: string): string {
    if |ws| == 1 then close + rest else "," + (next + rest)
  }

  lemma Regroup(a: string, b: string, c: string)
    ensures a + b + c == a + (b + c)
  {
  }

  lemma MembersText(ws: seq<Written>, rest: string)
    requires ws != []
    ensures var next := if |ws| == 1 then "" else Members(ws[1..]);
      Members(ws) + rest == ws[0].key + (":" + (ws[0].text + AfterFirst(ws, rest, "}", next)))
  {
    var key, text := ws[0].key, ws[0].text;
    var next := if |ws| == 1 then "" else Members(ws[1..]);
    var tail := if |ws| == 1 then "}" else "," + next;
    assert Members(ws) == key + ":" + text + tail;
    Regroup(",", next, rest);
    Regroup(key + ":" + text, tail, rest);
    Regroup(key + ":", text, tail + rest);
    Regroup(key, ":", text + (tail + rest));
  }

  lemma ItemsText(ws: seq<Written>, rest: string)
    requires ws != []
    ensures var next := if |ws| == 1 then "" else Items(ws[1..]);
      Items(ws) + rest == ws[0].text + AfterFirst(ws, rest, "]", next)
  {
  }

  /** The members of a written object are read, a later one of a name replacing an earlier one. */
  lemma {:induction false} MembersAreRead(d: Decoder, ws: seq<Written>, rest: string, depth: nat,
      members: map<string, Json>)
    requires ws != [] && AllReadable(d, ws)
    ensures ReadMembers(d, Members(ws) + rest, depth, members) == Value(Obj(MemberMap(members, ws)), rest)
    decreases |ws|
  {
    var w := ws[0];
    FirstAndRest(d, ws);
    MembersText(ws, rest);
    if |ws| == 1 {
      assert ("}" + rest)[1..] == rest && ws[1..] == [];
      MemberIsRead(d, w, "}" + rest, depth, members);
    } else {
      var next := Members(ws[1..]) + rest;
      FirstAndRest(d, ws[1..]);
      assert ("," + next)[1..] == next && next[0] == ws[1].key[0] && SkipSpace(next) == next;
      MemberIsRead(d, w, "," + next, depth, members);
      MembersAreRead(d, ws[1..], rest, depth, members[w.name := w.value]);
    }
  }

  lemma ValuesSplit(ws: seq<Written>, items: seq<Json>)
    requires ws != []
    ensures items + [ws[0].value] + Values(ws[1..]) == items + Values(ws)
    ensures |ws| == 1 ==> items + [ws[0].value] == items + Values(ws)
  {
  }

  lemma {:induction false} ItemsAreRead(d: Decoder, ws: seq<Written>, rest: string, depth: nat, items: seq<Json>)
    requires ws != [] && AllReadable(d, ws)
    ensures ReadItems(d, Items(ws) + rest, depth, items) == Value(Arr(items + Values(ws)), rest)
    decreases |ws|
  {
    var w := ws[0];
    FirstAndRest(d, ws);
    ItemsText(ws, rest);
    ValuesSplit(ws, items);
    if |ws| == 1 {
      assert ("]" + rest)[1..] == rest;
      ItemIsRead(d, w, "]" + rest, depth, items);
    } else {
      var next := Items(ws[1..]) + rest;
      FirstAndRest(d, ws[1..]);
      assert ("," + next)[1..] == next && next[0] == ws[1].text[0] && SkipSpace(next) == next;
      ItemIsRead(d, w, "," + next, depth, items);
      ItemsAreRead(d, ws[1..], rest, depth, items + [w.value]);
    }
  }

  /** A written object of scalars is read back. */
  lemma FlatObjectsAreRead(d: Decoder, ws: seq<Written>)
    requires ws != [] && d.limit > 0 && AllReadable(d, ws)
    ensures Loads(d, "{" + Members(ws)) == Value(Obj(MemberMap(map[], ws)), [])
  {
    FirstAndRest(d, ws);
    var text := "{" + Members(ws);
    assert Members(ws) + [] == Members(ws) && text[0] == '{' && text[1..] == Members(ws) && Members(ws)[0] == '"';
    assert SkipSpace(text) == text && SkipSpace(text[1..]) == text[1..];
    MembersAreRead(d, ws, [], 1, map[]);
  }

  /** And so is a written array. */
  lemma FlatArraysAreRead(d: Decoder, ws: seq<Written>)
    requires ws != [] && d.limit > 0 && AllReadable(d, ws)
    ensures Loads(d, "[" + Items(ws)) == Value(Arr(Values(ws)), [])
  {
    FirstAndRest(d, ws);
    var text := "[" + Items(ws);
    assert Items(ws) + [] == Items(ws) && text[0] == '[' && text[1..] == Items(ws) && Items(ws)[0] == ws[0].text[0];
    assert SkipSpace(text) == text && SkipSpace(text[1..]) == text[1..];
    ItemsAreRead(d, ws, [], 1, []);
    assert [] + Values(ws) == Values(ws);
  }

  // ---- resolving a path ----

  datatype Resolved = Found(value: Json) | Missing | Raised

  /** Parse an embedded text into a container; keep what does not parse; let RecursionError out. */
  function Coerce(d: Decoder, value: Json): Resolved {
    if !value.Str? then Found(value)
    else
      var text := Strip(value.value);
      if text == [] || text[0] !in {'{', '['} then Found(value)
      else
        match Loads(d, text)
        case Value(parsed, _) => Found(parsed)
        case Invalid => Found(value)
        case TooDeep => Raised
  }

  function Resolve(d: Decoder, current: Json, path: seq<string>): Resolved
    decreases |path|
  {
    if path == [] then Found(current)
    else
      match Coerce(d, current)
      case Found(container) =>
        if container.Obj? && path[0] in container.members then Resolve(d, container.members[path[0]], path[1..])
            else Missing
      case failed => failed
  }

  /** A path through nested objects leads to the member it names, and to nothing if one is missing. */
  lemma MembersResolve(d: Decoder, members: map<string, Json>, path: seq<string>)
    requires path != []
    ensures path[0] !in members ==> Resolve(d, Obj(members), path) == Missing
    ensures path[0] in members ==> Resolve(d, Obj(members), path) == Resolve(d, members[path[0]], path[1..])
    ensures Resolve(d, Obj(members), []) == Found(Obj(members))
  {
  }

  /** Through a text that is an object it leads as through that object, and through any other text nowhere. */
  lemma TextsResolveAsTheirObjects(d: Decoder, text: string, members: map<string, Json>, path: seq<string>)
    requires path != [] && Strip(text) != "" && Strip(text)[0] == '{'
    ensures Loads(d, Strip(text)) == Value(Obj(members), []) ==>
              Resolve(d, Str(text), path) == Resolve(d, Obj(members), path)
    ensures Loads(d, Strip(text)) == Invalid ==> Resolve(d, Str(text), path) == Missing
  {
  }

  /** Resolution raises exactly when it comes to a text, before the path's end, that is nested too deep. */
  lemma {:induction false} ResolveRaisesExactlyAtDeepText(d: Decoder, current: Json, path: seq<string>)
    ensures Resolve(d, current, path).Raised? <==>
            exists k | 0 <= k < |path| :: Resolve(d, current, path[..k]).Found?
                && Coerce(d, Resolve(d, current, path[..k]).value).Raised?
    decreases |path|
  {
    if path != [] {
      assert path[..0] == [];
      assert Resolve(d, current, path[..0]) == Found(current);
      var container := Coerce(d, current);
      if container.Found? {
        if container.value.Obj? && path[0] in container.value.members {
          var next := container.value.members[path[0]];
          ResolveRaisesExactlyAtDeepText(d, next, path[1..]);
          forall k | 0 < k <= |path| ensures Resolve(d, current, path[..k]) == Resolve(d, next, path[1..][..k - 1]) {
            assert path[..k][0] == path[0] && path[..k][1..] == path[1..][..k - 1];
          }
          if Resolve(d, next, path[1..]).Raised? {
            var k :| 0 <= k < |path[1..]| && Resolve(d, next, path[1..][..k]).Found?
                && Coerce(d, Resolve(d, next, path[1..][..k]).value).Raised?;
            assert Resolve(d, current, path[..k + 1]) == Resolve(d, next, path[1..][..k]);
          }
        } else {
          forall k | 0 < k <= |path|
            ensures Resolve(d, current, path[..k]) == Missing
          {
            assert path[..k][0] == path[0];
          }
        }
      }
    }
  }

  // ---- projecting an event ----

  datatype Field = Field(column: string, path: seq<string>, onStatus: Option<string>)

  datatype Recipe = Recipe(id: string, version: nat, resourceTypes: seq<string>, operationNames: seq<string>,
                           statuses: Option<seq<string>>, fields: seq<Field>)

  datatype Event = Event(properties: Json, status: Option<string>)

  datatype Result = Result(columns: map<string, Json>, pending: bool)

  predicate StatusMatches(onStatus: Option<string>, status: Option<string>) {
    onStatus.None? || (status.Some? && status.value != "" && Lower(status.value) == Lower(onStatus.value))
  }

  function Projected(d: Decoder, e: Event, fields: seq<Field>): Result {
    if fields == [] then Result(map[], false)
    else
      var before, f := Projected(d, e, fields[..|fields| - 1]), fields[|fields| - 1];
      if !StatusMatches(f.onStatus, e.status) then before
      else
        match Resolve(d, e.properties, f.path)
        case Raised => before.(pending := true)
        case Missing => before
        case Found(value) => if value.Null? then before else before.(columns := before.columns[f.column := value])
  }

  method Project(d: Decoder, e: Event, recipe: Recipe) returns (columns: map<string, Json>, pending: bool)
    ensures Result(columns, pending) == Projected(d, e, recipe.fields)
  {
    columns, pending := map[], false;
    for k := 0 to |recipe.fields|
      invariant Result(columns, pending) == Projected(d, e, recipe.fields[..k])
    {
      var f := recipe.fields[k];
      assert recipe.fields[..k + 1][..k] == recipe.fields[..k];
      if StatusMatches(f.onStatus, e.status) {
        match Resolve(d, e.properties, f.path) {
          case Raised => pending := true;
          case Missing =>
          case Found(value) => if !value.Null? { columns := columns[f.column := value]; }
        }
      }
    }
    assert recipe.fields[..|recipe.fields|] == recipe.fields;
  }

  /** The field is of every status, or of the event's, ignoring case. */
  ghost predicate Applies(e: Event, f: Field) {
    f.onStatus == None
      || (e.status.Some? && e.status.value != "" && Lower(e.status.value) == Lower(f.onStatus.value))
  }

  /** The k-th field is the last to give the column: it applies, and its path leads to something but null. */
  ghost predicate LastGiver(d: Decoder, e: Event, fields: seq<Field>, k: int, column: string) {
    && 0 <= k < |fields| && Gives(d, e, fields[k], column)
    && forall j | k < j < |fields| :: !Gives(d, e, fields[j], column)
  }

  ghost predicate Gives(d: Decoder, e: Event, f: Field, column: string) {
    f.column == column && Applies(e, f) && Resolve(d, e.properties, f.path).Found?
      && Resolve(d, e.properties, f.path).value != Null
  }

  /** Each column is what its last giver resolves to, and there are no others. */
  lemma {:induction false} ColumnsAreTheLastGivers(d: Decoder, e: Event, fields: seq<Field>, column: string)
    ensures forall k | LastGiver(d, e, fields, k, column) ::
              && column in Projected(d, e, fields).columns
              && Projected(d, e, fields).columns[column] == Resolve(d, e.properties, fields[k].path).value
    ensures column in Projected(d, e, fields).columns ==> exists f :: f in fields && Gives(d, e, f, column)
  {
    if fields != [] {
      var before, last := fields[..|fields| - 1], fields[|fields| - 1];
      ColumnsAreTheLastGivers(d, e, before, column);
      forall k | LastGiver(d, e, fields, k, column) && k < |before|
        ensures LastGiver(d, e, before, k, column)
      {
        assert !Gives(d, e, fields[|fields| - 1], column);
        forall j | k < j < |before| ensures !Gives(d, e, before[j], column) { assert before[j] == fields[j]; }
      }
      if column in Projected(d, e, before).columns {
        var f :| f in before && Gives(d, e, f, column);
        assert f in fields;
      }
      assert last in fields;
    }
  }

  ghost predicate Raises(d: Decoder, e: Event, f: Field) {
    StatusMatches(f.onStatus, e.status) && Resolve(d, e.properties, f.path).Raised?
  }

  /** An event is flagged for another projection exactly when some path that applies to it raises. */
  lemma {:induction false} PendingExactlyWhenAFieldRaises(d: Decoder, e: Event, fields: seq<Field>)
    ensures Projected(d, e, fields).pending <==> exists f :: f in fields && Raises(d, e, f)
  {
    if fields != [] {
      var before, last := fields[..|fields| - 1], fields[|fields| - 1];
      PendingExactlyWhenAFieldRaises(d, e, before);
      assert fields == before + [last];
      assert Projected(d, e, fields).pending <==> Projected(d, e, before).pending || Raises(d, e, last);
    }
  }

  // ---- the recipes of a deployment ----

  predicate Folded(names: seq<string>, name: string) {
    exists i | 0 <= i < |names| :: Lower(names[i]) == Lower(name)
  }

  predicate Listed(names: seq<string>, name: Option<string>) {
    name.Some? && name.value != "" && Folded(names, name.value)
  }

  predicate Matches(recipe: Recipe, resourceType: Option<string>, operation: Option<string>, status: Option<string>) {
    && (recipe.operationNames != [] ==> Listed(recipe.operationNames, operation))
    && (recipe.resourceTypes != [] ==> Listed(recipe.resourceTypes, resourceType))
    && (recipe.statuses.Some? ==> Listed(recipe.statuses.value, status))
  }

  function Matching(recipes: seq<Recipe>, resourceType: Option<string>, operation: Option<string>,
      status: Option<string>): seq<Recipe>
  {
    if recipes == [] then []
    else
      (if Matches(recipes[0], resourceType, operation, status) then [recipes[0]] else [])
      + Matching(recipes[1..], resourceType, operation, status)
  }

  function MaxVersion(recipes: seq<Recipe>): Option<nat> {
    if recipes == [] then None
    else
      var rest := MaxVersion(recipes[1..]);
      Some(if rest.Some? && rest.value > recipes[0].version then rest.value else recipes[0].version)
  }

  /** One of the names, ignoring case, is the given non-empty one. */
  ghost predicate AmongIgnoringCase(names: seq<string>, name: Option<string>) {
    name.Some? && name.value != "" && exists n :: n in names && Lower(n) == Lower(name.value)
  }

  /** A recipe matches by operation and resource type where it lists any, and by status where it has a list. */
  lemma MatchesExactly(recipe: Recipe, resourceType: Option<string>, operation: Option<string>, status: Option<string>)
    ensures Matches(recipe, resourceType, operation, status) <==>
            && (recipe.operationNames == [] || AmongIgnoringCase(recipe.operationNames, operation))
            && (recipe.resourceTypes == [] || AmongIgnoringCase(recipe.resourceTypes, resourceType))
            && (recipe.statuses == None || AmongIgnoringCase(recipe.statuses.value, status))
  {
    forall names: seq<string>, name: Option<string>
      ensures Listed(names, name) <==> AmongIgnoringCase(names, name)
    {
      if AmongIgnoringCase(names, name) {
        var n :| n in names && Lower(n) == Lower(name.value);
        var i :| 0 <= i < |names| && names[i] == n;
      }
    }
  }

  /** The version expected of an operation is the greatest of its recipes', and none without any. */
  lemma {:induction false} VersionIsTheGreatest(recipes: seq<Recipe>)
    ensures MaxVersion(recipes) == None <==> recipes == []
    ensures recipes != [] ==>
              && (exists r :: r in recipes && r.version == MaxVersion(recipes).value)
              && (forall r | r in recipes :: r.version <= MaxVersion(recipes).value)
  {
    if recipes != [] {
      VersionIsTheGreatest(recipes[1..]);
      assert recipes == [recipes[0]] + recipes[1..];
      assert recipes[0] in recipes;
      if recipes[1..] != [] {
        var r :| r in recipes[1..] && r.version == MaxVersion(recipes[1..]).value;
        assert r in recipes;
      }
    }
  }

  function Stored(result: Result, store: Json -> string): Reconcile.Projection {
    Reconcile.Projection(map c | c in result.columns :: Some(store(result.columns[c])), result.pending)
  }

  function Results(d: Decoder, e: Event, recipes: seq<Recipe>, store: Json -> string): seq<Reconcile.Projection> {
    seq(|recipes|, i requires 0 <= i < |recipes| => Stored(Projected(d, e, recipes[i].fields), store))
  }

  /** What reconciliation asks of a recipe table: decode unzips a payload, store makes a value a table property. */
  function Deployed(recipes: seq<Recipe>, d: Decoder, decode: string -> Event, store: Json -> string,
      parse: string -> Reconcile.Stamp): Reconcile.Recipes
  {
    Reconcile.Recipes(
      (resourceType, operation) => MaxVersion(Matching(recipes, resourceType, operation, None)),
      (resourceType, operation, payload) =>
        Results(d, decode(payload), Matching(recipes, resourceType, operation, decode(payload).status), store),
      parse)
  }

  lemma {:induction false} MatchingHasTheMatches(recipes: seq<Recipe>, resourceType: Option<string>,
      operation: Option<string>, status: Option<string>)
    ensures forall r :: r in Matching(recipes, resourceType, operation, status) <==>
        r in recipes && Matches(r, resourceType, operation, status)
  {
    if recipes != [] {
      MatchingHasTheMatches(recipes[1..], resourceType, operation, status);
      assert recipes == [recipes[0]] + recipes[1..];
    }
  }

  lemma {:induction false} MergedIsPendingWhenOneIs(results: seq<Reconcile.Projection>)
    ensures Reconcile.MergeAll(results).pending <==> exists r :: r in results && r.pending
  {
    if results != [] {
      var before, last := results[..|results| - 1], results[|results| - 1];
      MergedIsPendingWhenOneIs(before);
      assert forall r :: r in results <==> r in before || r == last;
    }
  }

  ghost predicate SomeFieldRaises(recipes: seq<Recipe>, d: Decoder, e: Event, resourceType: Option<string>,
      operation: Option<string>)
  {
    exists recipe, f :: recipe in recipes && Matches(recipe, resourceType, operation, e.status) && f in recipe.fields
        && Raises(d, e, f)
  }

  lemma ResultIsPendingExactlyWhenAFieldRaises(d: Decoder, e: Event, matching: seq<Recipe>, store: Json -> string)
    ensures Reconcile.MergeAll(Results(d, e, matching, store)).pending <==>
            exists recipe, f :: recipe in matching && f in recipe.fields && Raises(d, e, f)
  {
    var results := Results(d, e, matching, store);
    MergedIsPendingWhenOneIs(results);
    forall i | 0 <= i < |matching|
      ensures results[i].pending <==> exists f :: f in matching[i].fields && Raises(d, e, f)
    {
      PendingExactlyWhenAFieldRaises(d, e, matching[i].fields);
    }
    if recipe, f :| recipe in matching && f in recipe.fields && Raises(d, e, f) {
      var i :| 0 <= i < |matching| && matching[i] == recipe;
      assert results[i] in results;
    }
    if r :| r in results && r.pending {
      var i :| 0 <= i < |results| && results[i] == r;
      assert matching[i] in matching;
    }
  }

  /** Re-projecting a payload stays pending exactly when a field of a matching recipe raises on it. */
  lemma ReprojectionIsPendingExactlyWhenAFieldRaises(recipes: seq<Recipe>, d: Decoder, decode: string -> Event,
      store: Json -> string, parse: string -> Reconcile.Stamp, resourceType: Option<string>, operation: Option<string>,
          payload: string)
    ensures var r := Deployed(recipes, d, decode, store, parse);
      Reconcile.MergeAll(r.project(resourceType, operation, payload)).pending <==>
          SomeFieldRaises(recipes, d, decode(payload), resourceType, operation)
  {
    var e := decode(payload);
    var matching := Matching(recipes, resourceType, operation, e.status);
    assert Deployed(recipes, d, decode, store, parse).project(resourceType, operation, payload) ==
        Results(d, e, matching, store);
    MatchingHasTheMatches(recipes, resourceType, operation, e.status);
    ResultIsPendingExactlyWhenAFieldRaises(d, e, matching, store);
  }

  // ---- an event that is never projected for good ----

  const CRG_TYPE := "microsoft.compute/capacityreservationgroups"

  const CRG_WRITE := "microsoft.compute/capacityreservationgroups/write"

  /** The capacity reservation group recipe. */
  const CRG_CONFIGURATION := Recipe(
    "crg-configuration", 1, [CRG_TYPE], [CRG_WRITE, "microsoft.compute/capacityreservationgroups/delete"], None,
    [Field("Location", ["responseBody", "location"], None),
     Field("Zones", ["responseBody", "zones"], None),
     Field("ProvisioningState", ["responseBody", "properties", "provisioningState"], None),
     Field("ErrorCode", ["statusMessage", "error", "code"], Some("Failed"))])

  /** The response body is a JSON text with n arrays open at its start. */
  ghost predicate NestedBody(e: Event, n: nat, tail: string) {
    && e.properties.Obj? && "responseBody" in e.properties.members
    && e.properties.members["responseBody"] == Str(Opening(n) + tail)
    && (tail != [] ==> !IsSpace(tail[|tail| - 1]))
  }

  lemma {:induction false} NothingToStrip(s: string)
    requires s != [] && !IsSpace(s[0]) && !IsSpace(s[|s| - 1])
    ensures Strip(s) == s
  {
  }

  lemma {:induction false} OpeningIsBrackets(n: nat)
    ensures |Opening(n)| == n && forall i | 0 <= i < n :: Opening(n)[i] == '['
  {
    if n > 0 { OpeningIsBrackets(n - 1); }
  }

  lemma NestedBodyRaises(d: Decoder, e: Event, n: nat, tail: string, f: Field)
    requires NestedBody(e, n, tail) && n > d.limit
    requires |f.path| >= 2 && f.path[0] == "responseBody" && StatusMatches(f.onStatus, e.status)
    ensures Raises(d, e, f)
  {
    var text := Opening(n) + tail;
    OpeningIsBrackets(n);
    assert text[0] == '[' && !IsSpace(text[|text| - 1]);
    NothingToStrip(text);
    ManyBracketsAreTooDeep(d, n, tail, 0);
    assert SkipSpace(text) == text;
    assert Coerce(d, Str(text)).Raised?;
    assert f.path[1..] != [];
    assert Resolve(d, Str(text), f.path[1..]).Raised?;
  }

  /** A stored group whose body nests deeper than the limit stays pending however often it is projected again. */
  lemma NestedBodyStaysPending(recipes: seq<Recipe>, d: Decoder, decode: string -> Event, store: Json -> string,
      parse: string -> Reconcile.Stamp, row: Reconcile.Row, blobs: Reconcile.Blobs, n: nat, tail: string)
    requires CRG_CONFIGURATION in recipes && Reconcile.RowOk(row, blobs)
    requires row.facts.resourceType == Some(CRG_TYPE) && row.facts.operation == Some(CRG_WRITE)
    requires Reconcile.HasPayload(row) && row.pending
    requires Reconcile.Load(row, blobs).Some? && NestedBody(decode(Reconcile.Load(row, blobs).value), n, tail)
        && n > d.limit
    ensures Reconcile.StaysPending(Deployed(recipes, d, decode, store, parse), row, blobs)
  {
    var payload := Reconcile.Load(row, blobs).value;
    var e := decode(payload);
    var f := CRG_CONFIGURATION.fields[0];
    NestedBodyRaises(d, e, n, tail, f);
    assert Matches(CRG_CONFIGURATION, row.facts.resourceType, row.facts.operation, e.status) by {
      assert Lower(CRG_CONFIGURATION.operationNames[0]) == Lower(CRG_WRITE);
      assert Lower(CRG_CONFIGURATION.resourceTypes[0]) == Lower(CRG_TYPE);
    }
    assert f in CRG_CONFIGURATION.fields;
    ReprojectionIsPendingExactlyWhenAFieldRaises(recipes, d, decode, store, parse, row.facts.resourceType,
        row.facts.operation, payload);
  }

  /** A group write whose payload is kept inline. */
  function GroupRow(subscription: string, payload: string): Reconcile.Row {
    var facts := Reconcile.Facts(None, None, subscription, None, Some(CRG_TYPE), Some(CRG_WRITE), None, None, None,
        None, [], [], None, None, None);
    Reconcile.Row("group", facts, map[], Some(payload), None, false, Some("succeeded"), true,
                  Some(Reconcile.ASSEMBLER_VERSION), Some(CRG_CONFIGURATION.version), 0, 0, Some(0), None)
  }

  /**
   * So the drain fails for a real input: a table with one group write, whose payload decodes to an event
   * with such a body, has one pending row before and after any run, with any recipes beside this one.
   */
  lemma NestedBodyIsNeverDrained(recipes: seq<Recipe>, d: Decoder, decode: string -> Event, store: Json -> string,
      parse: string -> Reconcile.Stamp, subscription: string, payload: string, n: nat, tail: string, now: int,
          horizon: nat, maxUnits: nat)
    requires CRG_CONFIGURATION in recipes && maxUnits > 0
    requires 0 < |payload| <= Reconcile.MAX_INLINE && NestedBody(decode(payload), n, tail) && n > d.limit
    ensures var t := Reconcile.Task(Deployed(recipes, d, decode, store, parse), map[], subscription, now, horizon);
      var rows := [GroupRow(subscription, payload)];
      && Reconcile.TableOk(rows, map[])
      && Reconcile.Pending(t, rows) == 1
      && Reconcile.Targets(t, rows, maxUnits) == rows
      && Reconcile.Pending(t, Reconcile.Run(t, rows, maxUnits)) == 1
  {
    var t := Reconcile.Task(Deployed(recipes, d, decode, store, parse), map[], subscription, now, horizon);
    var row := GroupRow(subscription, payload);
    assert Reconcile.RowOk(row, map[]);
    NestedBodyStaysPending(recipes, d, decode, store, parse, row, map[], n, tail);
    OneStuckRow(t, row, maxUnits);
  }

  lemma OneStuckRow(t: Reconcile.Task, row: Reconcile.Row, maxUnits: nat)
    requires Reconcile.RowOk(row, t.blobs) && Reconcile.Selected(t, row) && Reconcile.StaysPending(t.r, row, t.blobs)
        && maxUnits > 0
    ensures Reconcile.Pending(t, [row]) == 1 && Reconcile.Targets(t, [row], maxUnits) == [row]
    ensures Reconcile.Pending(t, Reconcile.Run(t, [row], maxUnits)) == 1
  {
    assert [row][1..] == [] && Reconcile.Pending(t, []) == 0 && Reconcile.Stuck(t, []) == 0;
    assert Reconcile.Targets(t, [], maxUnits - 1) == [];
    Reconcile.SweepLowersTheCount(t, [row], maxUnits);
  }
}
