/**
 * What a single route matches (route.go:19-88): segments in braces are variables that take any
 * segment, all others only take themselves.
 */
module OneRoute {
  import opened Basics
  import opened Paths
  import opened Routes

  /** A segment of a route as its author means it. */
  datatype Segment = Literal(text: Bytes) | Variable(name: Bytes)

  /** "{" name "}", or the text itself. */
  function Written(s: Segment): Bytes {
    match s
    case Literal(text) => text
    case Variable(name) => [123] + name + [125]
  }

  function AllWritten(segments: seq<Segment>): (r: seq<Bytes>)
    ensures |r| == |segments| && forall i :: 0 <= i < |segments| ==> r[i] == Written(segments[i])
  {
    if segments == [] then [] else [Written(segments[0])] + AllWritten(segments[1..])
  }

  function PathOf(segments: seq<Segment>): Bytes {
    Slashed(AllWritten(segments))
  }

  /** No slash inside, and a text that is neither empty, in braces nor a star. */
  predicate IsPlain(s: Segment) {
    match s
    case Literal(text) => text != [] && 47 !in text && text[0] != 123 && text != [42]
    case Variable(name) => 47 !in name
  }

  predicate Takes(s: Segment, value: Bytes) {
    s.Literal? ==> value == s.text
  }

  /** The first segments of the request are ones the route takes. */
  predicate TakesAll(segments: seq<Segment>, values: seq<Bytes>) {
    segments == [] || (values != [] && Takes(segments[0], values[0]) && TakesAll(segments[1..], values[1..]))
  }

  /**
   * The variables' names with the values they took, later ones overriding earlier ones. A star in
   * the request is found in the map itself, so no variable is bound to it.
   */
  function Bound(segments: seq<Segment>, values: seq<Bytes>, vars: map<Bytes, Bytes>): map<Bytes, Bytes>
    requires TakesAll(segments, values)
  {
    if segments == [] then vars
    else
      Bound(segments[1..], values[1..], if segments[0].Variable? && values[0] != [42] then vars[segments[0].name := values[0]] else vars)
  }

  lemma WrittenHasNoSlash(s: Segment)
    requires IsPlain(s)
    ensures 47 !in Written(s) && Written(s) != []
  {
  }

  // ----- The table of one route -----

  /** No pattern lies strictly below the place. */
  ghost predicate NothingBelow(t: Table, at: Pattern) {
    forall p <- t :: Above(at, p) ==> p == at
  }

  /** The label under which a segment hangs, and the variable of its node. */
  lemma LabelOf(s: Segment)
    requires IsPlain(s)
    ensures match s
            case Literal(text) => Label(Written(s)) == text && text != [42]
            case Variable(name) => Label(Written(s)) == [42] && VarName(Written(s)) == name
  {
    if s.Variable? {
      assert Written(s)[1..|Written(s)| - 1] == s.name;
    }
  }

  /** Below a place with nothing below it, a registration makes one child, with the callback if it is the last segment. */
  lemma OneChild(t: Table, at: Pattern, segments: seq<Segment>, cb: Option<Callback>, tag: Bytes)
    requires segments != [] && (forall s <- segments :: IsPlain(s)) && NothingBelow(t, at)
    ensures var parts := AllWritten(segments);
            Lookup(Insert(t, at, parts, cb), Child(at, tag))
            == if tag == Label(parts[0]) then Some(Node(VarName(parts[0]), if |parts| == 1 then cb else None)) else None
  {
    var parts := AllWritten(segments);
    var next := Child(at, Label(parts[0]));
    WrittenHasNoSlash(segments[0]);
    assert Above(at, Child(at, tag));
    InsertTurn(t, at, parts, cb);
    var t' := InsertOne(t, at, parts[0], |parts| == 1, cb);
    InsertPointwise(t', next, parts[1..], cb, Child(at, tag));
    hide Insert, Label, VarName;
  }

  lemma StillNothingBelow(t: Table, at: Pattern, part: Bytes, last: bool, cb: Option<Callback>)
    requires NothingBelow(t, at)
    ensures NothingBelow(InsertOne(t, at, part, last, cb), Child(at, Label(part)))
  {
    var next := Child(at, Label(part));
    forall p <- t
      ensures !Above(next, p)
    {
      if Above(next, p) {
        AboveTransitive(at, next, p);
        AboveDepth(next, p);
        assert false;
      }
    }
  }

  /** Matching below such a place follows the segments and ends with the callback, or without one. */
  lemma {:induction false} MatchesBelow(t: Table, at: Pattern, segments: seq<Segment>, cb: Option<Callback>,
                                        values: seq<Bytes>, deepest: Match)
    requires (forall s <- segments :: IsPlain(s)) && NothingBelow(t, at)
    requires segments != [] ==> deepest.callback == None
    ensures var m := MatchFrom(Insert(t, at, AllWritten(segments), cb), at, values, deepest);
            if segments == [] then m == deepest
            else if TakesAll(segments, values) then m == Match(cb, Bound(segments, values, deepest.vars))
            else m.callback == None
    decreases |segments|
  {
    hide Insert, InsertOne, MatchFrom, Label, VarName, NothingBelow, Written, IsPlain;
    if segments == [] || values == [] {
      InsertTurn(t, at, AllWritten(segments), cb);
      NothingToMatch(Insert(t, at, AllWritten(segments), cb), at, values, deepest);
    } else {
      var parts, rest := AllWritten(segments), segments[1..];
      var next := Child(at, Label(parts[0]));
      var t' := InsertOne(t, at, parts[0], |parts| == 1, cb);
      WrittenHasNoSlash(segments[0]);
      LabelOf(segments[0]);
      InsertTurn(t, at, parts, cb);
      assert parts[1..] == AllWritten(rest);
      OneChild(t, at, segments, cb, values[0]);
      OneChild(t, at, segments, cb, [42]);
      MatchTurn(Insert(t, at, parts, cb), at, values, deepest);
      StillNothingBelow(t, at, parts[0], |parts| == 1, cb);
      if Takes(segments[0], values[0]) {
        var vars := if segments[0].Variable? && values[0] != [42] then deepest.vars[segments[0].name := values[0]] else deepest.vars;
        MatchesBelow(t', next, rest, cb, values[1..], Match(if rest == [] then cb else None, vars));
        assert TakesAll(segments, values) == TakesAll(rest, values[1..]) && (rest == [] ==> TakesAll(rest, values[1..]));
      }
    }
  }

  /** Without segments, or with nothing below, a match stays where it is. */
  lemma NothingToMatch(t: Table, at: Pattern, values: seq<Bytes>, deepest: Match)
    requires values == [] || NothingBelow(t, at)
    ensures MatchFrom(t, at, values, deepest) == deepest
  {
    if values != [] {
      assert Above(at, Child(at, values[0])) && Above(at, Child(at, STAR));
    }
  }

  /**
   * A table of one route: a request gets the route's callback exactly if its first segments are
   * the route's, with any value for a variable, and then each variable is bound to its value.
   */
  lemma OneRouteMatches(segments: seq<Segment>, cb: Option<Callback>, values: seq<Bytes>)
    requires segments != [] && forall s <- segments :: IsPlain(s)
    ensures var m := MatchTable(TableOf([Registration(PathOf(segments), cb)]), values);
            if TakesAll(segments, values) then m == Match(cb, Bound(segments, values, map[])) else m.callback == None
  {
    var regs := [Registration(PathOf(segments), cb)];
    assert regs[..0] == [];
    assert TableOf(regs) == Register(map[], PathOf(segments), cb);
    PathIsNotRoot(segments);
    forall i | 0 <= i < |segments|
      ensures 47 !in AllWritten(segments)[i]
    {
      WrittenHasNoSlash(segments[i]);
    }
    SplitSlashed(AllWritten(segments));
    var parts := [[]] + AllWritten(segments);
    InsertTurn(map[], Root, parts, cb);
    assert parts[1..] == AllWritten(segments);
    MatchesBelow(map[], Root, segments, cb, values, Match(None, map[]));
  }

  lemma PathIsNotRoot(segments: seq<Segment>)
    requires segments != [] && IsPlain(segments[0])
    ensures PathOf(segments) != ROOT_PATH
  {
    WrittenHasNoSlash(segments[0]);
    assert AllWritten(segments)[0] == Written(segments[0]);
  }

  /** For example "/a/{name}" and a request for "/a/v". */
  lemma VariableIsBound(a: Bytes, name: Bytes, v: Bytes, cb: Option<Callback>)
    requires a != [] && a[0] != 123 && a != [42] && 47 !in a && 47 !in name && v != [42]
    ensures MatchTable(TableOf([Registration([47] + a + [47, 123] + name + [125], cb)]), [a, v]) == Match(cb, map[name := v])
  {
    var segments := [Literal(a), Variable(name)];
    assert segments[1..] == [Variable(name)] && segments[1..][1..] == [];
    var last := [123] + name + [125];
    assert AllWritten(segments) == [a, last] && [a, last][1..] == [last];
    assert Slashed([last]) == [47] + last;
    assert PathOf(segments) == [47] + a + [47, 123] + name + [125];
    assert [a, v][1..] == [v];
    OneRouteMatches(segments, cb, [a, v]);
    assert TakesAll(segments[1..], [v]) && TakesAll(segments, [a, v]);
    assert Bound(segments[1..], [v], map[]) == map[name := v];
    hide MatchTable, TableOf, PathOf;
  }

  /** The route "/" takes any one segment, and nothing names the variable. */
  lemma RootTakesAny(cb: Option<Callback>, values: seq<Bytes>)
    requires values != [] && values[0] != [42]
    ensures MatchTable(TableOf([Registration([47], cb)]), values) == Match(cb, map[[] := values[0]])
  {
    var regs := [Registration([47], cb)];
    assert regs[..0] == [];
    var t := TableOf(regs);
    assert TableOf([]) == map[];
    assert t == Register(map[], [47], cb);
    assert t == map[Child(Root, [42]) := Node([], cb)];
    MatchTurn(t, Root, values, Match(None, map[]));
    NothingToMatch(t, Child(Root, [42]), values[1..], Match(cb, map[[] := values[0]]));
  }
}
