/**
 * The route trie (route.go): a tree of maps updated in place, proved equal to a flat table
 * from patterns to nodes with a literal-first greedy matching rule.
 */
module Routes {
  import opened Basics
  import opened Paths

  type Callback = nat

  /** A place in the trie: the root, or a label below a place. */
  datatype Pattern = Root | Child(parent: Pattern, tag: Bytes)

  /** A node without its children; the callback may be nil. */
  datatype Node = Node(key: Bytes, callback: Option<Callback>)

  type Table = map<Pattern, Node>

  const STAR: Bytes := [42]
  const OPEN_BRACE: byte := 123
  const ROOT_PATH: Bytes := [SLASH]
  const WILDCARD: Pattern := Child(Root, STAR)

  /** A segment beginning with a brace is a wildcard. */
  function Label(part: Bytes): Bytes {
    if part != [] && part[0] == OPEN_BRACE then STAR else part
  }

  /** The variable a wildcard segment names: everything between its first and last byte. */
  function VarName(part: Bytes): Bytes {
    if |part| >= 2 && part[0] == OPEN_BRACE then part[1..|part| - 1] else []
  }

  /** The source slices out of range on a segment that is a lone opening brace. */
  predicate Sliceable(parts: seq<Bytes>) {
    [OPEN_BRACE] !in parts
  }

  function Depth(p: Pattern): nat {
    if p.Root? then 0 else 1 + Depth(p.parent)
  }

  /** `p` is `q` or on the way to it. */
  predicate Above(p: Pattern, q: Pattern) {
    p == q || (q.Child? && Above(p, q.parent))
  }

  // ----- The flat table -----

  /** One segment below the node at `at`: find or create the child, and set its callback if it is the last. */
  function InsertOne(t: Table, at: Pattern, part: Bytes, last: bool, cb: Option<Callback>): Table {
    var p := Child(at, Label(part));
    if p !in t then t[p := Node(VarName(part), if last then cb else None)]
    else if last then t[p := t[p].(callback := cb)]
    else t
  }

  /** One registration, segment by segment, skipping empty ones. */
  function Insert(t: Table, at: Pattern, parts: seq<Bytes>, cb: Option<Callback>): Table
    decreases |parts|
  {
    if parts == [] then t
    else if parts[0] == [] then Insert(t, at, parts[1..], cb)
    else Insert(InsertOne(t, at, parts[0], |parts| == 1, cb), Child(at, Label(parts[0])), parts[1..], cb)
  }

  /** One segment of a registration. */
  lemma InsertTurn(t: Table, at: Pattern, parts: seq<Bytes>, cb: Option<Callback>)
    ensures parts == [] ==> Insert(t, at, parts, cb) == t
    ensures parts != [] && parts[0] == [] ==> Insert(t, at, parts, cb) == Insert(t, at, parts[1..], cb)
    ensures parts != [] && parts[0] != [] ==>
              Insert(t, at, parts, cb)
              == Insert(InsertOne(t, at, parts[0], |parts| == 1, cb), Child(at, Label(parts[0])), parts[1..], cb)
  {
  }

  function WithoutWildcard(t: Table): Table {
    map p | p in t && !Above(WILDCARD, p) :: t[p]
  }

  /** `AddRoute` on the table; "/" replaces the wildcard at the first level and all below it. */
  function Register(t: Table, path: Bytes, cb: Option<Callback>): Table {
    if path == ROOT_PATH then WithoutWildcard(t)[WILDCARD := Node([], cb)]
    else Insert(t, Root, Split(path), cb)
  }

  /** The callback of the deepest node reached and the variables bound on the way. */
  datatype Match = Match(callback: Option<Callback>, vars: map<Bytes, Bytes>)

  function MatchFrom(t: Table, at: Pattern, parts: seq<Bytes>, deepest: Match): Match
    decreases |parts|
  {
    if parts == [] then deepest
    else if Child(at, parts[0]) in t then
      MatchFrom(t, Child(at, parts[0]), parts[1..], deepest.(callback := t[Child(at, parts[0])].callback))
    else if Child(at, STAR) in t then
      var node := t[Child(at, STAR)];
      MatchFrom(t, Child(at, STAR), parts[1..], Match(node.callback, deepest.vars[node.key := parts[0]]))
    else deepest
  }

  /** One segment of a match. */
  lemma MatchTurn(t: Table, at: Pattern, parts: seq<Bytes>, deepest: Match)
    requires parts != []
    ensures var literal, wildcard := Child(at, parts[0]), Child(at, STAR);
            MatchFrom(t, at, parts, deepest)
            == if literal in t then MatchFrom(t, literal, parts[1..], deepest.(callback := t[literal].callback))
               else if wildcard in t then
                 MatchFrom(t, wildcard, parts[1..], Match(t[wildcard].callback, deepest.vars[t[wildcard].key := parts[0]]))
               else deepest
  {
  }

  function MatchTable(t: Table, parts: seq<Bytes>): Match {
    MatchFrom(t, Root, parts, Match(None, map[]))
  }

  // ----- What a registration does to each pattern -----

  function Segments(parts: seq<Bytes>): seq<Bytes> {
    if parts == [] then []
    else if parts[0] == [] then Segments(parts[1..])
    else [parts[0]] + Segments(parts[1..])
  }

  /** The pattern that segments lead to from `at`. */
  function Extend(at: Pattern, segments: seq<Bytes>): Pattern
    decreases |segments|
  {
    if segments == [] then at else Extend(Child(at, Label(segments[0])), segments[1..])
  }

  function Lookup(t: Table, p: Pattern): Option<Node> {
    if p in t then Some(t[p]) else None
  }

  /** A node on the way keeps what it had, or is created without a callback; the last one gets it. */
  function Visited(before: Option<Node>, name: Bytes, sets: bool, cb: Option<Callback>): Node {
    var node := if before.Some? then before.value else Node(name, None);
    if sets then node.(callback := cb) else node
  }

  /** Only a path that does not end in a slash sets a callback. */
  predicate SetsCallback(parts: seq<Bytes>) {
    parts != [] && parts[|parts| - 1] != []
  }

  lemma ExtendDepth(at: Pattern, segments: seq<Bytes>)
    ensures Depth(Extend(at, segments)) == Depth(at) + |segments|
    ensures Above(at, Extend(at, segments))
    decreases |segments|
  {
    if segments != [] {
      ExtendDepth(Child(at, Label(segments[0])), segments[1..]);
      AboveTransitive(at, Child(at, Label(segments[0])), Extend(at, segments));
    }
  }

  lemma AboveTransitive(p: Pattern, q: Pattern, r: Pattern)
    requires Above(p, q) && Above(q, r)
    ensures Above(p, r)
  {
  }

  lemma AboveDepth(p: Pattern, q: Pattern)
    requires Above(p, q)
    ensures Depth(p) <= Depth(q) && (Depth(p) == Depth(q) ==> p == q)
  {
  }

  /** Two patterns on the way to the same one are the same if they are equally deep. */
  lemma AboveAtDepth(p: Pattern, q: Pattern, r: Pattern)
    requires Above(p, r) && Above(q, r) && Depth(p) == Depth(q)
    ensures p == q
  {
    if p == r || q == r {
      AboveDepth(p, r);
      AboveDepth(q, r);
    } else {
      AboveAtDepth(p, q, r.parent);
    }
  }

  /** What inserting `parts` below `at` leaves at `p`: the nodes strictly below `at` on the way to the target are visited. */
  ghost function After(t: Table, at: Pattern, parts: seq<Bytes>, cb: Option<Callback>, p: Pattern): Option<Node> {
    var segments := Segments(parts);
    var full := Extend(at, segments);
    if Depth(at) < Depth(p) <= Depth(at) + |segments| && Above(p, full) then
      Some(Visited(Lookup(t, p), VarName(segments[Depth(p) - Depth(at) - 1]), p == full && SetsCallback(parts), cb))
    else Lookup(t, p)
  }

  lemma InsertOnePointwise(t: Table, at: Pattern, part: Bytes, last: bool, cb: Option<Callback>, p: Pattern)
    ensures Lookup(InsertOne(t, at, part, last, cb), p)
         == if p == Child(at, Label(part)) then Some(Visited(Lookup(t, p), VarName(part), last, cb)) else Lookup(t, p)
  {
  }

  /** Every node on the way to the target is visited, all others are left alone. */
  lemma {:induction false} InsertPointwise(t: Table, at: Pattern, parts: seq<Bytes>, cb: Option<Callback>, p: Pattern)
    ensures Lookup(Insert(t, at, parts, cb), p) == After(t, at, parts, cb, p)
    ensures Depth(Extend(at, Segments(parts))) == Depth(at) + |Segments(parts)|
    decreases |parts|
  {
    hide InsertOne, Visited, Lookup;
    ExtendDepth(at, Segments(parts));
    if parts != [] {
      var rest := parts[1..];
      assert rest != [] ==> SetsCallback(rest) == SetsCallback(parts);
      if parts[0] == [] {
        InsertPointwise(t, at, rest, cb, p);
      } else {
        var next := Child(at, Label(parts[0]));
        var t' := InsertOne(t, at, parts[0], |parts| == 1, cb);
        InsertOnePointwise(t, at, parts[0], |parts| == 1, cb, p);
        InsertPointwise(t', next, rest, cb, p);
        AfterOneMore(t, t', at, parts, cb, p);
      }
    }
  }

  lemma AfterOneMore(t: Table, t': Table, at: Pattern, parts: seq<Bytes>, cb: Option<Callback>, p: Pattern)
    requires parts != [] && parts[0] != []
    requires var next := Child(at, Label(parts[0]));
             Lookup(t', p) == if p == next then Some(Visited(Lookup(t, p), VarName(parts[0]), |parts| == 1, cb)) else Lookup(t, p)
    ensures After(t', Child(at, Label(parts[0])), parts[1..], cb, p) == After(t, at, parts, cb, p)
  {
    hide Visited, Lookup, Label, VarName, Above;
    var next := Child(at, Label(parts[0]));
    var rest := parts[1..];
    var full := Extend(next, Segments(rest));
    SegmentsOneMore(at, parts);
    ExtendDepth(next, Segments(rest));
    assert Depth(next) == Depth(at) + 1;
    hide Segments, Extend, SetsCallback, Depth;
    if p == next {
      assert |parts| == 1 <==> full == next && SetsCallback(parts);
    } else if Depth(p) == Depth(next) {
      if Above(p, full) { AboveAtDepth(p, next, full); }
    } else if Depth(p) > Depth(next) && Depth(p) <= Depth(next) + |Segments(rest)| {
      assert Segments(parts)[Depth(p) - Depth(at) - 1] == Segments(rest)[Depth(p) - Depth(next) - 1];
    }
  }

  lemma SegmentsOneMore(at: Pattern, parts: seq<Bytes>)
    requires parts != [] && parts[0] != []
    ensures Segments(parts) == [parts[0]] + Segments(parts[1..])
    ensures Extend(at, Segments(parts)) == Extend(Child(at, Label(parts[0])), Segments(parts[1..]))
    ensures parts[1..] != [] ==> SetsCallback(parts[1..]) == SetsCallback(parts)
    ensures |parts| == 1 ==> Segments(parts) == [parts[0]] && SetsCallback(parts)
    ensures SetsCallback(parts[1..]) ==> Segments(parts[1..]) != []
  {
    var rest := parts[1..];
    assert Segments(parts)[1..] == Segments(rest);
    if SetsCallback(rest) { LastSegmentKept(rest); }
  }

  // ----- What a sequence of registrations leaves -----

  datatype Registration = Registration(path: Bytes, callback: Option<Callback>)

  function TableOf(regs: seq<Registration>): Table {
    if regs == [] then map[]
    else
      var r := regs[|regs| - 1];
      Register(TableOf(regs[..|regs| - 1]), r.path, r.callback)
  }

  /** The pattern a path stands for: its non-empty segments with braces turned into wildcards. */
  function PatternOf(path: Bytes): Pattern {
    if path == ROOT_PATH then WILDCARD else Extend(Root, Segments(Split(path)))
  }

  /** "/" wipes out every pattern below the first-level wildcard. */
  predicate Wipes(path: Bytes, p: Pattern) {
    path == ROOT_PATH && Above(WILDCARD, p) && p != WILDCARD
  }

  predicate Sets(path: Bytes) {
    path == ROOT_PATH || SetsCallback(Split(path))
  }

  /** What one registration does to the pattern `p`. */
  lemma RegisterPointwise(t: Table, path: Bytes, cb: Option<Callback>, p: Pattern)
    requires p != Root
    ensures var t' := Register(t, path, cb);
            var full := PatternOf(path);
            && (Wipes(path, p) ==> p !in t')
            && (p == full && Sets(path) ==> p in t' && t'[p].callback == cb)
            && (!Wipes(path, p) && !(p == full && Sets(path)) ==>
                  && (p in t' <==> p in t || (path != ROOT_PATH && Above(p, full)))
                  && (p in t' ==> t'[p].callback == (if p in t then t[p].callback else None))
                  && (p in t ==> t'[p] == t[p]))
  {
    if path != ROOT_PATH {
      InsertPointwise(t, Root, Split(path), cb, p);
      if Above(p, PatternOf(path)) { AboveDepth(p, PatternOf(path)); }
      if Sets(path) { LastSegmentKept(Split(path)); }
    }
  }

  /** No registration after `i` sets or wipes the pattern `p`. */
  ghost predicate IsLastFor(regs: seq<Registration>, i: nat, p: Pattern)
    requires i < |regs|
  {
    forall j :: i < j < |regs| ==> !Wipes(regs[j].path, p) && !(PatternOf(regs[j].path) == p && Sets(regs[j].path))
  }

  /** Each node's callback is the last one registered for its pattern. */
  lemma {:induction false} LastRegistrationWins(regs: seq<Registration>, i: nat, p: Pattern)
    requires i < |regs| && p == PatternOf(regs[i].path) && Sets(regs[i].path) && IsLastFor(regs, i, p)
    ensures p in TableOf(regs) && TableOf(regs)[p].callback == regs[i].callback
    decreases |regs|
  {
    var n := |regs| - 1;
    var init := regs[..n];
    SetsSomething(regs[i].path);
    RegisterPointwise(TableOf(init), regs[n].path, regs[n].callback, p);
    if i < n {
      assert init[i] == regs[i];
      assert forall j :: i < j < n ==> init[j] == regs[j];
      assert IsLastFor(init, i, p);
      LastRegistrationWins(init, i, p);
    }
  }

  lemma SetsSomething(path: Bytes)
    requires Sets(path)
    ensures PatternOf(path) != Root
  {
    if path != ROOT_PATH {
      LastSegmentKept(Split(path));
      ExtendDepth(Root, Segments(Split(path)));
    }
  }

  lemma LastSegmentKept(parts: seq<Bytes>)
    requires SetsCallback(parts)
    ensures Segments(parts) != []
  {
    if |parts| > 1 {
      assert parts[1..][|parts[1..]| - 1] == parts[|parts| - 1];
      LastSegmentKept(parts[1..]);
    }
  }

  /** Registration `i` passed through `p`, and no "/" wiped it since. */
  ghost predicate Keeps(regs: seq<Registration>, i: nat, p: Pattern)
    requires i < |regs|
  {
    Above(p, PatternOf(regs[i].path)) && forall j :: i < j < |regs| ==> !Wipes(regs[j].path, p)
  }

  lemma KeepsOneMore(regs: seq<Registration>, i: nat, p: Pattern)
    requires i + 1 < |regs|
    ensures Keeps(regs, i, p) <==> Keeps(regs[..|regs| - 1], i, p) && !Wipes(regs[|regs| - 1].path, p)
  {
    hide PatternOf, Wipes, Above;
    var init := regs[..|regs| - 1];
    assert forall j :: 0 <= j < |init| ==> init[j] == regs[j];
  }

  lemma RegisterPresence(t: Table, path: Bytes, cb: Option<Callback>, p: Pattern)
    requires p != Root
    ensures p in Register(t, path, cb) <==> Above(p, PatternOf(path)) || (p in t && !Wipes(path, p))
  {
    RegisterPointwise(t, path, cb, p);
    assert Above(p, Root) <==> p == Root;
  }

  lemma {:induction false} KeptIsPresent(regs: seq<Registration>, i: nat, p: Pattern)
    requires p != Root && i < |regs| && Keeps(regs, i, p)
    ensures p in TableOf(regs)
    decreases |regs|
  {
    var n := |regs| - 1;
    RegisterPresence(TableOf(regs[..n]), regs[n].path, regs[n].callback, p);
    if i < n {
      KeepsOneMore(regs, i, p);
      KeptIsPresent(regs[..n], i, p);
    }
  }

  lemma {:induction false} PresentIsKept(regs: seq<Registration>, p: Pattern) returns (i: nat)
    requires p != Root && p in TableOf(regs)
    ensures i < |regs| && Keeps(regs, i, p)
    decreases |regs|
  {
    var n := |regs| - 1;
    RegisterPresence(TableOf(regs[..n]), regs[n].path, regs[n].callback, p);
    if Above(p, PatternOf(regs[n].path)) {
      i := n;
    } else {
      i := PresentIsKept(regs[..n], p);
      KeepsOneMore(regs, i, p);
    }
  }

  /** A pattern is in the table exactly if some registration passed through it and no "/" wiped it since. */
  lemma TableContents(regs: seq<Registration>, p: Pattern)
    requires p != Root
    ensures p in TableOf(regs) <==> exists i :: 0 <= i < |regs| && Keeps(regs, i, p)
  {
    if p in TableOf(regs) {
      var i := PresentIsKept(regs, p);
    }
    if i :| 0 <= i < |regs| && Keeps(regs, i, p) {
      KeptIsPresent(regs, i, p);
    }
  }

  // ----- Which name a wildcard's variable has -----

  /** "/" makes a new node for the first-level wildcard and drops everything below the old one. */
  predicate Replaces(path: Bytes, p: Pattern) {
    path == ROOT_PATH && Above(WILDCARD, p)
  }

  /** The variable a path names at `p`. */
  function NameIn(path: Bytes, p: Pattern): Bytes {
    var segments := Segments(Split(path));
    if path == ROOT_PATH || !(1 <= Depth(p) <= |segments|) then [] else VarName(segments[Depth(p) - 1])
  }

  lemma InsertNames(t: Table, parts: seq<Bytes>, cb: Option<Callback>, p: Pattern)
    requires p != Root
    ensures var t', segments := Insert(t, Root, parts, cb), Segments(parts);
            && (p in t ==> p in t' && t'[p].key == t[p].key)
            && (Above(p, Extend(Root, segments)) ==>
                  Depth(p) <= |segments| && (p !in t ==> p in t' && t'[p].key == VarName(segments[Depth(p) - 1])))
  {
    InsertPointwise(t, Root, parts, cb, p);
    var full := Extend(Root, Segments(parts));
    if Above(p, full) { AboveDepth(p, full); }
    assert Depth(p) >= 1;
    hide Insert, Segments, Extend, Above, VarName, SetsCallback;
  }

  /** A registration names a node when it makes it, and never again. */
  lemma RegisterNames(t: Table, path: Bytes, cb: Option<Callback>, p: Pattern)
    requires p != Root
    ensures var t' := Register(t, path, cb);
            && (p in t && !Replaces(path, p) ==> p in t' && t'[p].key == t[p].key)
            && (Above(p, PatternOf(path)) && (p !in t || Replaces(path, p)) ==> p in t' && t'[p].key == NameIn(path, p))
  {
    assert Above(p, Root) <==> p == Root;
    assert Above(p, WILDCARD) <==> p == WILDCARD;
    assert Depth(p) >= 1;
    InsertNames(t, Split(path), cb, p);
    hide Insert, Split, Segments, Extend, Above, VarName, Depth;
  }

  /**
   * Registration `i` passed through `p`, "/" has not replaced it since, and it was the first
   * to do so: it replaced the node itself, or what earlier registrations left there was wiped.
   */
  ghost predicate FirstThrough(regs: seq<Registration>, i: nat, p: Pattern)
    requires i < |regs|
  {
    && Above(p, PatternOf(regs[i].path))
    && (forall j :: i < j < |regs| ==> !Replaces(regs[j].path, p))
    && (Replaces(regs[i].path, p) || forall j :: 0 <= j < i ==> !Keeps(regs[..i], j, p))
  }

  lemma FirstOneMore(regs: seq<Registration>, i: nat, p: Pattern)
    requires i + 1 < |regs|
    ensures FirstThrough(regs, i, p)
       <==> FirstThrough(regs[..|regs| - 1], i, p) && !Replaces(regs[|regs| - 1].path, p)
  {
    hide PatternOf, Replaces, Above, Keeps;
    var init := regs[..|regs| - 1];
    assert forall j :: 0 <= j < |init| ==> init[j] == regs[j];
    assert init[..i] == regs[..i];
  }

  /** The name of a node is the one given by the first registration through it. */
  lemma {:induction false} FirstNameStays(regs: seq<Registration>, i: nat, p: Pattern)
    requires p != Root && i < |regs| && FirstThrough(regs, i, p)
    ensures p in TableOf(regs) && TableOf(regs)[p].key == NameIn(regs[i].path, p)
    decreases |regs|
  {
    var n := |regs| - 1;
    RegisterNames(TableOf(regs[..n]), regs[n].path, regs[n].callback, p);
    hide Register, NameIn, PatternOf, Replaces, Above, Wipes;
    if i < n {
      FirstOneMore(regs, i, p);
      FirstNameStays(regs[..n], i, p);
    } else {
      TableContents(regs[..n], p);
    }
  }

  /** Every node of the table was named by some registration. */
  lemma {:induction false} PresentIsNamed(regs: seq<Registration>, p: Pattern) returns (i: nat)
    requires p != Root && p in TableOf(regs)
    ensures i < |regs| && FirstThrough(regs, i, p)
    decreases |regs|
  {
    var n := |regs| - 1;
    var init := regs[..n];
    RegisterPresence(TableOf(init), regs[n].path, regs[n].callback, p);
    TableContents(init, p);
    if Above(p, PatternOf(regs[n].path)) && (Replaces(regs[n].path, p) || p !in TableOf(init)) {
      i := n;
    } else {
      assert !Replaces(regs[n].path, p);
      i := PresentIsNamed(init, p);
      FirstOneMore(regs, i, p);
    }
  }

  // ----- The matching rule, said without the loop -----

  /** The child a segment leads to: the literal one if there is one, else the wildcard. */
  function NextPlace(t: Table, at: Pattern, part: Bytes): Pattern {
    Child(at, if Child(at, part) in t then part else STAR)
  }

  /**
   * `r` is the literal-first way of following `parts` to the end: each label is the segment
   * itself if the table has that child, else the wildcard.
   */
  ghost predicate Follows(t: Table, parts: seq<Bytes>, r: Pattern) {
    match r
    case Root => parts == []
    case Child(parent, tag) =>
      && r in t && parts != []
      && r == NextPlace(t, parent, parts[|parts| - 1])
      && Follows(t, parts[..|parts| - 1], parent)
  }

  /** `r` follows a prefix of `parts` and cannot be extended by the next segment. */
  ghost predicate Reached(t: Table, parts: seq<Bytes>, r: Pattern) {
    var n := Depth(r);
    && n <= |parts|
    && Follows(t, parts[..n], r)
    && (n < |parts| ==> Child(r, parts[n]) !in t && Child(r, STAR) !in t)
  }

  /** The variables bound on the way: each wildcard step binds its node's variable to the segment it took. */
  function Bindings(t: Table, parts: seq<Bytes>, r: Pattern): map<Bytes, Bytes>
    requires Depth(r) == |parts|
  {
    if r.Root? then map[]
    else
      var init, last := parts[..|parts| - 1], parts[|parts| - 1];
      var vars := Bindings(t, init, r.parent);
      if Child(r.parent, last) in t || r !in t then vars else vars[t[r].key := last]
  }

  lemma FollowsIsUnique(t: Table, parts: seq<Bytes>, r: Pattern, r': Pattern)
    requires Follows(t, parts, r) && Follows(t, parts, r')
    ensures r == r'
  {
  }

  /** Following longer input goes through where following a prefix of it ends. */
  lemma {:induction false} FollowsPrefix(t: Table, parts: seq<Bytes>, n: nat, r: Pattern) returns (q: Pattern)
    requires Follows(t, parts, r) && n <= |parts|
    ensures Follows(t, parts[..n], q)
    ensures n < |parts| ==> Child(q, parts[n]) in t || Child(q, STAR) in t
    decreases |parts|
  {
    if n == |parts| {
      assert parts[..n] == parts;
      q := r;
    } else {
      var init := parts[..|parts| - 1];
      assert init[..n] == parts[..n];
      q := FollowsPrefix(t, init, n, r.parent);
      if n == |init| {
        assert init[..n] == init;
        FollowsIsUnique(t, init, q, r.parent);
      }
    }
  }

  /** There is one such pattern only. */
  lemma ReachedIsUnique(t: Table, parts: seq<Bytes>, r: Pattern, r': Pattern)
    requires Reached(t, parts, r) && Reached(t, parts, r') && Depth(r) <= Depth(r')
    ensures r == r'
  {
    var n, n' := Depth(r), Depth(r');
    assert n < n' ==> parts[..n'][n] == parts[n];
    var q := FollowsPrefix(t, parts[..n'], n, r');
    assert parts[..n'][..n] == parts[..n];
    FollowsIsUnique(t, parts[..n], q, r);
    if n == n' {
      assert parts[..n'] == parts[..n];
      FollowsIsUnique(t, parts[..n], r, r');
    }
  }

  /** Following the next segment, and what it binds. */
  lemma FollowOneMore(t: Table, parts: seq<Bytes>, at: Pattern)
    requires Depth(at) < |parts| && Follows(t, parts[..Depth(at)], at)
    requires NextPlace(t, at, parts[Depth(at)]) in t
    ensures var n := Depth(at);
            var part, next := parts[n], NextPlace(t, at, parts[n]);
            var vars := Bindings(t, parts[..n], at);
            && Depth(next) == n + 1 && Follows(t, parts[..n + 1], next)
            && Bindings(t, parts[..n + 1], next) == if Child(at, part) in t then vars else vars[t[next].key := part]
  {
    var n := Depth(at);
    var longer := parts[..n + 1];
    assert longer[..|longer| - 1] == parts[..n] && longer[|longer| - 1] == parts[n];
  }

  /** A match under way at `at` ends at a pattern it reaches, with that node's callback. */
  lemma {:induction false} MatchReaches(t: Table, parts: seq<Bytes>, at: Pattern, deepest: Match) returns (r: Pattern)
    requires Depth(at) <= |parts| && Follows(t, parts[..Depth(at)], at)
    requires deepest == Match(if at == Root then None else t[at].callback, Bindings(t, parts[..Depth(at)], at))
    ensures Reached(t, parts, r) && (r != Root ==> r in t)
    ensures MatchFrom(t, at, parts[Depth(at)..], deepest)
         == Match(if r == Root then None else t[r].callback, Bindings(t, parts[..Depth(r)], r))
    decreases |parts| - Depth(at)
  {
    var n := Depth(at);
    var rest := parts[n..];
    if rest != [] && (Child(at, rest[0]) in t || Child(at, STAR) in t) {
      var next := NextPlace(t, at, rest[0]);
      FollowOneMore(t, parts, at);
      assert parts[n + 1..] == rest[1..];
      hide Follows, Bindings;
      r := MatchReaches(t, parts, next, Match(t[next].callback, Bindings(t, parts[..n + 1], next)));
    } else {
      r := at;
    }
  }

  /**
   * `matchRoutes` returns the callback of the one pattern a literal-first match reaches, if any,
   * and the variables bound on the way there.
   */
  lemma MatchIsGreedy(t: Table, parts: seq<Bytes>) returns (r: Pattern)
    ensures Reached(t, parts, r) && forall r' :: Reached(t, parts, r') ==> r' == r
    ensures r != Root ==> r in t
    ensures MatchTable(t, parts) == Match(if r == Root then None else t[r].callback, Bindings(t, parts[..Depth(r)], r))
  {
    r := MatchReaches(t, parts, Root, Match(None, map[]));
    assert parts[0..] == parts;
    forall r' | Reached(t, parts, r')
      ensures r' == r
    {
      if Depth(r) <= Depth(r') {
        ReachedIsUnique(t, parts, r, r');
      } else {
        ReachedIsUnique(t, parts, r', r);
      }
    }
  }

  /** Everything on the way to a pattern in the table is in it too. */
  lemma ParentsArePresent(regs: seq<Registration>, p: Pattern)
    requires p in TableOf(regs) && p.Child? && p.parent != Root
    ensures p.parent in TableOf(regs)
  {
    hide TableOf, PatternOf;
    var i := PresentIsKept(regs, p);
    AboveTransitive(p.parent, p, PatternOf(regs[i].path));
    assert WILDCARD.parent == Root;
    assert forall path :: Wipes(path, p.parent) ==> Wipes(path, p);
    assert Keeps(regs, i, p.parent);
    KeptIsPresent(regs, i, p.parent);
  }

  /** The labels of a pattern, read as the segments of a request. */
  function Tags(p: Pattern): (r: seq<Bytes>)
    ensures |r| == Depth(p)
  {
    if p.Root? then [] else Tags(p.parent) + [p.tag]
  }

  lemma {:induction false} PresentIsFollowed(regs: seq<Registration>, p: Pattern)
    requires p == Root || p in TableOf(regs)
    ensures Follows(TableOf(regs), Tags(p), p)
  {
    hide TableOf;
    if p.Child? {
      if p.parent != Root { ParentsArePresent(regs, p); }
      PresentIsFollowed(regs, p.parent);
      assert Tags(p)[..|Tags(p)| - 1] == Tags(p.parent);
    }
  }

  /** The name of the variable at `p`, told from the registrations. */
  ghost function NameOf(regs: seq<Registration>, p: Pattern): Bytes {
    if i :| 0 <= i < |regs| && FirstThrough(regs, i, p) then NameIn(regs[i].path, p) else []
  }

  /** The variables of the wildcards on the way to `p`, told from the registrations. */
  ghost function Variables(regs: seq<Registration>, parts: seq<Bytes>, p: Pattern): map<Bytes, Bytes>
    requires Depth(p) == |parts|
  {
    if p.Root? then map[]
    else
      var init, last := parts[..|parts| - 1], parts[|parts| - 1];
      var vars := Variables(regs, init, p.parent);
      if p.tag == last then vars else vars[NameOf(regs, p) := last]
  }

  lemma {:induction false} BoundAsNamed(regs: seq<Registration>, parts: seq<Bytes>, p: Pattern)
    requires Follows(TableOf(regs), parts, p)
    ensures Depth(p) == |parts| && Bindings(TableOf(regs), parts, p) == Variables(regs, parts, p)
  {
    hide TableOf, FirstThrough, NameIn;
    if p.Child? {
      BoundAsNamed(regs, parts[..|parts| - 1], p.parent);
      var i := PresentIsNamed(regs, p);
      var k :| 0 <= k < |regs| && FirstThrough(regs, k, p) && NameOf(regs, p) == NameIn(regs[k].path, p);
      FirstNameStays(regs, k, p);
    }
  }

  /**
   * End to end: a request whose segments lead to a registered pattern, literal children first,
   * gets the callback last registered for it, and the variables of the wildcards it passed under
   * the names given first.
   */
  lemma RegisteredRouteIsFound(regs: seq<Registration>, i: nat, p: Pattern, parts: seq<Bytes>)
    requires i < |regs| && p == PatternOf(regs[i].path) && Sets(regs[i].path) && IsLastFor(regs, i, p)
    requires Follows(TableOf(regs), parts, p)
    ensures Depth(p) == |parts|
    ensures MatchTable(TableOf(regs), parts) == Match(regs[i].callback, Variables(regs, parts, p))
  {
    LastRegistrationWins(regs, i, p);
    SetsSomething(regs[i].path);
    BoundAsNamed(regs, parts, p);
    hide TableOf, PatternOf, IsLastFor, Sets, MatchTable, Follows;
    assert parts[..Depth(p)] == parts;
    var r := MatchIsGreedy(TableOf(regs), parts);
    assert Reached(TableOf(regs), parts, p);
  }

  /** In particular, the pattern's own labels always lead to it. */
  lemma OwnLabelsFindRoute(regs: seq<Registration>, i: nat, p: Pattern)
    requires i < |regs| && p == PatternOf(regs[i].path) && Sets(regs[i].path) && IsLastFor(regs, i, p)
    ensures MatchTable(TableOf(regs), Tags(p)).callback == regs[i].callback
  {
    LastRegistrationWins(regs, i, p);
    PresentIsFollowed(regs, p);
    RegisteredRouteIsFound(regs, i, p, Tags(p));
    hide TableOf, PatternOf, IsLastFor, Sets, MatchTable;
  }

  // ----- The trie in the heap -----

  class RouteEntry {
    var children: map<Bytes, RouteEntry>
    var key: Bytes
    var callback: Option<Callback>
    /** Where the node was hung when it was created; nodes are never moved. */
    ghost const place: Pattern

    constructor (key: Bytes, callback: Option<Callback>, ghost place: Pattern)
      ensures this.children == map[] && this.key == key && this.callback == callback && this.place == place
    {
      this.children, this.key, this.callback, this.place := map[], key, callback, place;
    }
  }

  class Router {
    var routes: map<Bytes, RouteEntry>
    /** Every node of the tree under its pattern. */
    ghost var at: map<Pattern, RouteEntry>

    constructor ()
      ensures Valid() && Contents() == map[] && at == map[]
    {
      routes, at := map[], map[];
    }

    ghost function ChildrenOf(p: Pattern): map<Bytes, RouteEntry>
      requires p == Root || p in at
      reads this, at.Values
    {
      if p == Root then routes else at[p].children
    }

    /** The node at `p` is where it was hung, its parent links to it, and it links to nodes of the tree. */
    ghost predicate InPlace(p: Pattern)
      requires p in at
      reads this, at.Values
    {
      && p != Root && at[p].place == p
      && (p.parent == Root || p.parent in at)
      && p.tag in ChildrenOf(p.parent) && ChildrenOf(p.parent)[p.tag] == at[p]
      && forall k <- at[p].children :: Child(p, k) in at
    }

    /** The nodes form a tree. */
    ghost predicate Valid()
      reads this, at.Values
    {
      && Root !in at
      && (forall p <- at :: InPlace(p))
      && (forall k <- routes :: Child(Root, k) in at)
    }

    /** The flat table the tree stands for. */
    ghost function Contents(): Table
      reads this, at.Values
    {
      map p | p in at :: Node(at[p].key, at[p].callback)
    }

    /** `node` is the tree's node at pattern `p`; null stands for the root map. */
    ghost predicate At(p: Pattern, node: RouteEntry?)
      reads this
    {
      (node == null && p == Root) || (p in at && at[p] == node)
    }

    /** The links out of a place are the tree's nodes below it. */
    lemma LinkedChild(here: Pattern, tag: Bytes)
      requires Valid() && (here == Root || here in at)
      ensures tag in ChildrenOf(here) <==> Child(here, tag) in at
      ensures tag in ChildrenOf(here) ==> at[Child(here, tag)] == ChildrenOf(here)[tag]
    {
      if Child(here, tag) in at { assert InPlace(Child(here, tag)); }
      if here != Root { assert InPlace(here); }
    }

    /** No node hangs in two places. */
    lemma AtOnce(here: Pattern, node: RouteEntry?)
      requires Valid() && At(here, node)
      ensures forall p <- at :: at[p] == node <==> p == here
    {
      assert forall p <- at :: InPlace(p);
    }

    /** `AddRoute`. */
    method AddRoute(path: Bytes, callback: Option<Callback>)
      requires Valid() && Sliceable(Split(path))
      modifies this, at.Values
      ensures Valid() && Contents() == Register(old(Contents()), path, callback)
      ensures fresh(at.Values - old(at.Values))
    {
      if path == ROOT_PATH {
        ReplaceWildcard(callback);
        return;
      }
      var parts := Split(path);
      var cur: RouteEntry? := null;
      ghost var here := Root;
      var idx := 0;
      assert parts[0..] == parts;
      hide Valid, Contents, Insert;
      while idx < |parts|
        invariant 0 <= idx <= |parts|
        invariant Valid() && fresh(at.Values - old(at.Values))
        invariant At(here, cur)
        invariant Insert(Contents(), here, parts[idx..], callback) == Insert(old(Contents()), Root, parts, callback)
      {
        hide Valid, Contents, Insert;
        var part := parts[idx];
        InsertTurn(Contents(), here, parts[idx..], callback);
        assert parts[idx..][1..] == parts[idx + 1..] && parts[idx..][0] == part;
        if |part| != 0 {
          cur := Descend(here, cur, part, idx == |parts| - 1, callback);
          here := Child(here, Label(part));
        }
        idx := idx + 1;
      }
      InsertTurn(Contents(), here, parts[idx..], callback);
    }

    /** The "/" case: a new node replaces the wildcard at the first level and its subtree. */
    method ReplaceWildcard(callback: Option<Callback>)
      requires Valid()
      modifies this
      ensures Valid() && fresh(at.Values - old(at.Values))
      ensures Contents() == WithoutWildcard(old(Contents()))[WILDCARD := Node([], callback)]
    {
      hide Valid, Contents;
      var e := new RouteEntry([], callback, WILDCARD);
      routes := routes[STAR := e];
      at := (map p | p in at && !Above(WILDCARD, p) :: at[p])[WILDCARD := e];
      WildcardReplaced(e);
      TreeStaysValid(e);
      OnlyNewValue(WILDCARD, e);
    }

    twostate lemma OnlyNewValue(p0: Pattern, new e: RouteEntry)
      requires p0 in at && at[p0] == e
      requires forall p <- at :: p == p0 || (p in old(at) && old(at)[p] == at[p])
      ensures at.Values - old(at.Values) <= {e}
    {
      forall v <- at.Values | v != e
        ensures v in old(at.Values)
      {
        var p :| p in at && at[p] == v;
        assert old(at)[p] == v;
      }
    }

    twostate lemma TreeStaysValid(new e: RouteEntry)
      requires old(Valid()) && e.children == map[] && e.place == WILDCARD
      requires at == (map p | p in old(at) && !Above(WILDCARD, p) :: old(at)[p])[WILDCARD := e]
      requires forall p <- old(at) :: unchanged(old(at)[p])
      requires routes == old(routes)[STAR := e]
      ensures Valid()
    {
      forall p <- at | p != WILDCARD
        ensures InPlace(p)
      {
        SurvivorInPlace(p, e);
      }
      forall k <- routes | k != STAR
        ensures Child(Root, k) in at
      {
        assert Child(Root, k) in old(at);
        assert !Above(WILDCARD, Root) && !Above(WILDCARD, Child(Root, k));
      }
    }

    twostate lemma SurvivorInPlace(p: Pattern, new e: RouteEntry)
      requires old(Valid()) && p in old(at) && !Above(WILDCARD, p)
      requires at == (map p | p in old(at) && !Above(WILDCARD, p) :: old(at)[p])[WILDCARD := e]
      requires forall p <- old(at) :: unchanged(old(at)[p])
      requires routes == old(routes)[STAR := e]
      ensures InPlace(p)
    {
      assert old(InPlace(p));
      forall k <- at[p].children
        ensures Child(p, k) in at
      {
        assert Child(p, k) in old(at);
        assert Above(WILDCARD, Child(p, k)) <==> WILDCARD == Child(p, k) || Above(WILDCARD, p);
      }
    }

    twostate lemma WildcardReplaced(new e: RouteEntry)
      requires at == (map p | p in old(at) && !Above(WILDCARD, p) :: old(at)[p])[WILDCARD := e]
      requires forall p <- old(at) :: unchanged(old(at)[p])
      ensures Contents() == WithoutWildcard(old(Contents()))[WILDCARD := Node(e.key, e.callback)]
    {
      hide Above;
    }

    /** One turn of the loop: step to the child for `part`, creating it if it is not there. */
    method Descend(ghost here: Pattern, cur: RouteEntry?, part: Bytes, last: bool, callback: Option<Callback>)
      returns (next: RouteEntry)
      requires Valid() && At(here, cur) && part != [] && part != [OPEN_BRACE]
      modifies this, at.Values
      ensures Valid() && fresh(at.Values - old(at.Values))
      ensures At(Child(here, Label(part)), next)
      ensures Contents() == InsertOne(old(Contents()), here, part, last, callback)
    {
      var key: Bytes, tag := [], part;
      if part[0] == OPEN_BRACE {
        key := part[1..|part| - 1];
        tag := STAR;
      }
      var children := if cur == null then routes else cur.children;
      LinkedChild(here, tag);
      hide Valid;
      if tag in children {
        next := children[tag];
        if last {
          SetCallback(Child(here, tag), next, callback);
        }
      } else {
        next := Grow(here, cur, tag, key, if last then callback else None);
      }
    }

    method SetCallback(ghost p: Pattern, route: RouteEntry, callback: Option<Callback>)
      requires Valid() && p in at && at[p] == route
      modifies route`callback
      ensures Valid()
      ensures Contents() == old(Contents())[p := Node(route.key, callback)]
    {
      ghost var before := Contents();
      AtOnce(p, route);
      assert forall q <- at :: InPlace(q);
      route.callback := callback;
      assert forall q <- at :: InPlace(q);
      hide Valid, InPlace;
      assert Contents() == before[p := Node(route.key, callback)];
    }

    /** Hang a new node under `parent`, or under the root. */
    method Grow(ghost here: Pattern, parent: RouteEntry?, tag: Bytes, key: Bytes, callback: Option<Callback>)
      returns (route: RouteEntry)
      requires Valid() && At(here, parent) && Child(here, tag) !in at
      modifies this, parent
      ensures Valid() && fresh(at.Values - old(at.Values))
      ensures At(Child(here, tag), route)
      ensures Contents() == old(Contents())[Child(here, tag) := Node(key, callback)]
    {
      hide Valid, Contents, InPlace, At;
      ghost var p0 := Child(here, tag);
      AtOnce(here, parent);
      route := new RouteEntry(key, callback, p0);
      if parent == null {
        routes := routes[tag := route];
      } else {
        parent.children := parent.children[tag := route];
      }
      at := at[p0 := route];
      Grown(here, parent, tag, route);
    }

    twostate lemma NodeAdded(new here: Pattern, parent: RouteEntry?, new tag: Bytes, new route: RouteEntry)
      requires old(Valid()) && old(At(here, parent))
      requires Child(here, tag) !in old(at) && at == old(at)[Child(here, tag) := route]
      requires route.children == map[] && route.place == Child(here, tag)
      requires routes == if parent == null then old(routes)[tag := route] else old(routes)
      requires forall p <- old(at) :: p != here ==> old(at)[p].children == old(at[p].children)
      requires parent != null ==> parent.children == old(parent.children)[tag := route]
      ensures Valid()
    {
      forall p <- old(at)
        ensures InPlace(p)
      {
        assert old(InPlace(p));
      }
    }

    twostate lemma Grown(new here: Pattern, parent: RouteEntry?, new tag: Bytes, new route: RouteEntry)
      requires old(Valid()) && old(At(here, parent))
      requires Child(here, tag) !in old(at) && at == old(at)[Child(here, tag) := route]
      requires route.children == map[] && route.place == Child(here, tag)
      requires routes == if parent == null then old(routes)[tag := route] else old(routes)
      requires parent != null ==> parent.children == old(parent.children)[tag := route]
      requires forall p <- old(at) :: p != here ==> old(at)[p].children == old(at[p].children)
      requires forall p <- old(at) :: old(at)[p].key == old(at[p].key) && old(at)[p].callback == old(at[p].callback)
      ensures Valid() && at.Values - old(at.Values) <= {route}
      ensures Contents() == old(Contents())[Child(here, tag) := Node(route.key, route.callback)]
      ensures At(Child(here, tag), route)
    {
      hide Valid, Contents, InPlace;
      NodeAdded(here, parent, tag, route);
      ContentsWithNode(Child(here, tag), route);
      OnlyNewValue(Child(here, tag), route);
    }

    twostate lemma ContentsWithNode(p0: Pattern, new route: RouteEntry)
      requires at == old(at)[p0 := route]
      requires forall p <- old(at) :: old(at)[p].key == old(at[p].key) && old(at)[p].callback == old(at[p].callback)
      ensures Contents() == old(Contents())[p0 := Node(route.key, route.callback)]
    {
    }

    /** One segment of a match, read from the links out of a place. */
    lemma MatchBelow(here: Pattern, parts: seq<Bytes>, deepest: Match)
      requires Valid() && (here == Root || here in at) && parts != []
      ensures var links, t := ChildrenOf(here), Contents();
              var literal, wildcard := Child(here, parts[0]), Child(here, STAR);
              if parts[0] in links then
                literal in at && at[literal] == links[parts[0]]
                && MatchFrom(t, here, parts, deepest) == MatchFrom(t, literal, parts[1..], deepest.(callback := at[literal].callback))
              else if STAR in links then
                wildcard in at && at[wildcard] == links[STAR]
                && MatchFrom(t, here, parts, deepest)
                   == MatchFrom(t, wildcard, parts[1..], Match(at[wildcard].callback, deepest.vars[at[wildcard].key := parts[0]]))
              else MatchFrom(t, here, parts, deepest) == deepest
    {
      LinkedChild(here, parts[0]);
      LinkedChild(here, STAR);
      MatchTurn(Contents(), here, parts, deepest);
      hide Valid, MatchFrom, ChildrenOf;
    }

    /** `matchRoutes` on the split path: literal child first, else the wildcard, else stop. */
    method MatchRoutes(parts: seq<Bytes>) returns (callback: Option<Callback>, vars: map<Bytes, Bytes>)
      requires Valid()
      ensures Match(callback, vars) == MatchTable(Contents(), parts)
    {
      var routeMap := routes;
      ghost var here := Root;
      callback, vars := None, map[];
      var i := 0;
      assert parts[0..] == parts;
      hide Valid, MatchFrom, MatchTable, Contents;
      while i < |parts|
        invariant 0 <= i <= |parts|
        invariant (here == Root || here in at) && routeMap == ChildrenOf(here)
        invariant MatchFrom(Contents(), here, parts[i..], Match(callback, vars)) == MatchTable(Contents(), parts)
      {
        hide Valid, MatchFrom, MatchTable, Contents;
        var part := parts[i];
        assert parts[i..][1..] == parts[i + 1..];
        ghost var literal, wildcard := Child(here, part), Child(here, STAR);
        MatchBelow(here, parts[i..], Match(callback, vars));
        if part in routeMap {
          var route := routeMap[part];
          callback := route.callback;
          here := literal;
          routeMap := route.children;
        } else if STAR in routeMap {
          var route := routeMap[STAR];
          callback := route.callback;
          vars := vars[route.key := part];
          here := wildcard;
          routeMap := route.children;
        } else {
          break;
        }
        i := i + 1;
      }
    }
  }
}
