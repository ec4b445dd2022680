/** Paths as repeated Uri-Path options (message.go:156-170, 216-241) and their trip over the wire. */
module Paths {
  import opened Basics
  import opened Options
  import opened StableSort
  import opened Messages
  import opened Codec

  const SLASH: byte := 47
  const AMPERSAND: byte := 38

  /** `strings.Split(s, "/")`: one more segment than there are slashes. */
  function Split(s: Bytes): (parts: seq<Bytes>)
    ensures |parts| >= 1
  {
    if s == [] then [[]]
    else if s[0] == SLASH then [[]] + Split(s[1..])
    else var rest := Split(s[1..]); [[s[0]] + rest[0]] + rest[1..]
  }

  /** `strings.Join(parts, sep)`. */
  function Join(parts: seq<Bytes>, sep: byte): Bytes {
    if parts == [] then []
    else if |parts| == 1 then parts[0]
    else parts[0] + [sep] + Join(parts[1..], sep)
  }

  /** Splitting undoes nothing: joining the segments again gives the string. */
  lemma {:induction false} JoinSplit(s: Bytes)
    ensures Join(Split(s), SLASH) == s
    ensures forall p <- Split(s) :: SLASH !in p
  {
    if s != [] {
      JoinSplit(s[1..]);
      var rest := Split(s[1..]);
      assert s == [s[0]] + s[1..];
      if s[0] == SLASH {
        assert Split(s)[1..] == rest;
      } else {
        assert Split(s)[1..] == rest[1..];
        assert [s[0]] + Join(rest, SLASH) == Join(Split(s), SLASH);
      }
    }
  }

  /** `for s[0] == '/' && len(s) > 1 { s = s[1:] }`. */
  function StripSlashes(s: Bytes): (r: Bytes)
    requires s != []
    ensures r != [] && |r| <= |s|
  {
    if s[0] == SLASH && |s| > 1 then StripSlashes(s[1..]) else s
  }

  /** What is stripped is a run of slashes. */
  lemma {:induction false} StripSlashesSuffix(s: Bytes)
    requires s != []
    ensures var k := |s| - |StripSlashes(s)|;
            StripSlashes(s) == s[k..] && forall i :: 0 <= i < k ==> s[i] == SLASH
  {
    if s[0] == SLASH && |s| > 1 {
      var t := s[1..];
      StripSlashesSuffix(t);
      var k := |t| - |StripSlashes(t)|;
      assert t[k..] == s[k + 1..];
      forall i | 0 <= i < k + 1
        ensures s[i] == SLASH
      {
        assert i > 0 ==> s[i] == t[i - 1];
      }
    }
  }

  ghost predicate AllSlashes(s: Bytes) {
    forall b <- s :: b == SLASH
  }

  lemma AllSlashesCons(s: Bytes)
    requires s != []
    ensures AllSlashes(s) <==> s[0] == SLASH && AllSlashes(s[1..])
  {
    assert s[0] in s;
    assert forall b <- s :: b == s[0] || b in s[1..];
    assert forall b <- s[1..] :: b in s;
  }

  /** What is left begins with a slash only if there is nothing else, and then it is "/". */
  lemma {:induction false} StripSlashesStops(s: Bytes)
    requires s != []
    ensures StripSlashes(s)[0] == SLASH ==> StripSlashes(s) == [SLASH]
    ensures StripSlashes(s) == [SLASH] <==> AllSlashes(s)
  {
    AllSlashesCons(s);
    assert AllSlashes([]);
    hide AllSlashes;
    if s[0] == SLASH && |s| > 1 {
      StripSlashesStops(s[1..]);
    } else if |s| == 1 {
      assert s == [s[0]] && s[1..] == [];
    }
  }

  function TextOptions(id: byte, parts: seq<Bytes>): (r: seq<Opt>)
    ensures |r| == |parts| && forall i :: 0 <= i < |parts| ==> r[i] == Opt(id, Text(parts[i]))
  {
    if parts == [] then [] else [Opt(id, Text(parts[0]))] + TextOptions(id, parts[1..])
  }

  /** `WithPathString`: replace the Uri-Path options by one per segment. */
  function WithPathString(m: Msg, s: Bytes): Msg {
    if s == [] then m
    else m.(opts := Minus(m.opts, URI_PATH) + TextOptions(URI_PATH, Split(StripSlashes(s))))
  }

  /** The strings of a list of options; the source insists that they are strings. */
  function Texts(opts: seq<Opt>): seq<Bytes> {
    if opts == [] then []
    else [if opts[0].value.Text? then opts[0].value.text else []] + Texts(opts[1..])
  }

  function PathString(m: Msg): Bytes {
    Join(Texts(Only(m.opts, URI_PATH)), SLASH)
  }

  function QueryString(m: Msg): Bytes {
    Join(Texts(Only(m.opts, URI_QUERY)), AMPERSAND)
  }

  lemma OnlyTextOptions(id: byte, parts: seq<Bytes>)
    ensures Only(TextOptions(id, parts), id) == TextOptions(id, parts)
    ensures Texts(TextOptions(id, parts)) == parts
  {
    if parts != [] {
      assert TextOptions(id, parts)[1..] == TextOptions(id, parts[1..]);
    }
  }

  /** Locally, the path reads back as it was set, without its leading slashes. */
  lemma PathReadsBack(m: Msg, s: Bytes)
    requires s != []
    ensures Only(WithPathString(m, s).opts, URI_PATH) == TextOptions(URI_PATH, Split(StripSlashes(s)))
    ensures PathString(WithPathString(m, s)) == StripSlashes(s)
  {
    var parts := Split(StripSlashes(s));
    OnlyConcat(Minus(m.opts, URI_PATH), TextOptions(URI_PATH, parts), URI_PATH);
    OnlyMinus(m.opts, URI_PATH, URI_PATH);
    OnlyTextOptions(URI_PATH, parts);
    JoinSplit(StripSlashes(s));
  }

  lemma OnlyDelivered(opts: seq<Opt>, id: byte)
    ensures Only(DeliveredAll(opts), id) == DeliveredAll(Only(opts, id))
  {
    if opts != [] {
      OnlyDelivered(opts[1..], id);
      if Delivered(opts[0]).Some? {
        assert DeliveredAll(opts)[1..] == DeliveredAll(opts[1..]);
      }
    }
  }

  lemma DeliveredPart(part: Bytes)
    requires |part| <= 255
    ensures Delivered(Opt(URI_PATH, Text(part))) == Some(Opt(URI_PATH, Text(part)))
  {
  }

  lemma {:induction false} DeliveredParts(parts: seq<Bytes>)
    requires forall p <- parts :: |p| <= 255
    ensures DeliveredAll(TextOptions(URI_PATH, parts)) == TextOptions(URI_PATH, parts)
  {
    hide Delivered;
    if parts != [] {
      assert parts[0] in parts && forall p <- parts[1..] :: p in parts;
      DeliveredPart(parts[0]);
      DeliveredParts(parts[1..]);
      assert TextOptions(URI_PATH, parts)[1..] == TextOptions(URI_PATH, parts[1..]);
    }
  }

  lemma SplitLength(s: Bytes)
    ensures forall p <- Split(s) :: |p| <= |s|
  {
    if s != [] {
      SplitLength(s[1..]);
      var rest := Split(s[1..]);
      assert forall p <- rest[1..] :: p in rest;
    }
  }

  /** A slash separates the segments before it from those after it. */
  lemma {:induction false} SplitAtSlash(a: Bytes, b: Bytes)
    ensures Split(a + [SLASH] + b) == Split(a) + Split(b)
  {
    var s := a + [SLASH] + b;
    if a == [] {
      assert s[0] == SLASH && s[1..] == b;
    } else {
      assert s[0] == a[0] && s[1..] == a[1..] + [SLASH] + b;
      SplitAtSlash(a[1..], b);
    }
  }

  // ----- Segments with a slash in front of each -----

  function Slashed(parts: seq<Bytes>): Bytes {
    if parts == [] then [] else [47] + (parts[0] + Slashed(parts[1..]))
  }

  lemma {:induction false} SplitWhole(s: Bytes)
    requires 47 !in s
    ensures Split(s) == [s]
  {
    if s != [] {
      assert s[0] in s && s == [s[0]] + s[1..];
      SplitWhole(s[1..]);
    }
  }

  /** Such a path splits into its segments, after an empty one. */
  lemma {:induction false} SplitSlashed(parts: seq<Bytes>)
    requires forall p <- parts :: 47 !in p
    ensures Split(Slashed(parts)) == [[]] + parts
  {
    if parts != [] {
      var rest := Slashed(parts[1..]);
      SplitWhole(parts[0]);
      SplitSlashed(parts[1..]);
      SplitAfterSlash(parts[0], rest);
      hide Split, Slashed;
      assert ([[]] + parts[1..])[1..] == parts[1..] && [[], parts[0]] + parts[1..] == [[]] + parts;
    }
  }

  lemma SplitNothing()
    ensures Split([]) == [[]]
  {
  }

  /** A segment in front of such a path. */
  lemma SplitAfterSlash(part: Bytes, rest: Bytes)
    requires Split(part) == [part] && (rest == [] || rest[0] == 47) && Split(rest)[0] == []
    ensures Split([47] + (part + rest)) == [[], part] + Split(rest)[1..]
    ensures Split(part + rest) == [part] + Split(rest)[1..]
  {
    hide Split;
    SplitAtSlash([], part + rest);
    SplitNothing();
    assert [] + [47] + (part + rest) == [47] + (part + rest);
    if rest == [] {
      assert part + rest == part;
    } else {
      SplitAtSlash([], rest[1..]);
      SplitAtSlash(part, rest[1..]);
      assert [] + [47] + rest[1..] == rest;
      assert part + rest == part + [47] + rest[1..];
      assert ([[]] + Split(rest[1..]))[1..] == Split(rest[1..]);
    }
  }

  /** Setting the path "/a/b/c" leaves an option 11 for a, b and c, in that order. */
  lemma SegmentsAreOptions(m: Msg, parts: seq<Bytes>)
    requires parts != [] && parts[0] != [] && forall p <- parts :: 47 !in p
    ensures Only(WithPathString(m, Slashed(parts)).opts, 11) == TextOptions(11, parts)
  {
    var rest := Slashed(parts[1..]);
    SlashedStrips(parts);
    SplitWhole(parts[0]);
    SplitSlashed(parts[1..]);
    SplitAfterSlash(parts[0], rest);
    PathReadsBack(m, Slashed(parts));
    hide Split, Slashed, StripSlashes, WithPathString, Only;
    assert ([[]] + parts[1..])[1..] == parts[1..] && [parts[0]] + parts[1..] == parts;
  }

  lemma SlashedStrips(parts: seq<Bytes>)
    requires parts != [] && parts[0] != [] && 47 !in parts[0]
    ensures Slashed(parts) != [] && StripSlashes(Slashed(parts)) == parts[0] + Slashed(parts[1..])
    ensures parts[1..] != [] ==> Slashed(parts[1..]) != [] && Slashed(parts[1..])[0] == 47
  {
    var path := Slashed(parts);
    assert parts[0][0] in parts[0] && path[0] == 47 && path[1..] == parts[0] + Slashed(parts[1..]);
    assert path[1..][0] == parts[0][0];
  }

  /** The query "a&b" is read from options 15 with a and b. */
  lemma QueryIsJoined(m: Msg, a: Bytes, b: Bytes)
    requires Only(m.opts, 15) == [Opt(15, Text(a)), Opt(15, Text(b))]
    ensures QueryString(m) == a + [38] + b
  {
    var opts := [Opt(15, Text(a)), Opt(15, Text(b))];
    assert opts[1..] == [Opt(15, Text(b))] && opts[1..][1..] == [];
    assert Texts(opts[1..]) == [b];
    assert Texts(opts) == [a, b] && [a, b][1..] == [b];
    assert Join([b], AMPERSAND) == b;
    assert Join([a, b], AMPERSAND) == a + [38] + b;
  }

  /** Joining cannot make a segment longer than the part it lies in, whatever slashes the parts hold. */
  lemma {:induction false} JoinedSegmentsFit(parts: seq<Bytes>, most: nat)
    requires forall q <- parts :: |q| <= most
    ensures forall p <- Split(Join(parts, SLASH)) :: |p| <= most
  {
    if |parts| == 1 {
      SplitLength(parts[0]);
    } else if |parts| > 1 {
      var rest := Join(parts[1..], SLASH);
      SplitAtSlash(parts[0], rest);
      SplitLength(parts[0]);
      JoinedSegmentsFit(parts[1..], most);
    }
  }

  /** The path read from legal options has no long segment. */
  lemma LegalPathFits(m: Msg)
    requires AllLegal(m.opts)
    ensures forall p <- Split(PathString(m)) :: |p| <= 255
  {
    var opts := Only(m.opts, URI_PATH);
    OnlyMember(m.opts, URI_PATH);
    TextsFit(opts);
    JoinedSegmentsFit(Texts(opts), 255);
  }

  lemma TextsFit(opts: seq<Opt>)
    requires forall o <- opts :: o.id == URI_PATH && Legal(o)
    ensures forall q <- Texts(opts) :: |q| <= 255
  {
    if opts != [] {
      assert opts[0] in opts && forall o <- opts[1..] :: o in opts;
      TextsFit(opts[1..]);
    }
  }

  /** Locally set path options arrive as they are if their segments are short. */
  lemma ShortPathArrives(m: Msg, s: Bytes)
    requires s != [] && m.mtype <= 3 && |m.token| <= 8 && Encodable(m.opts)
    requires forall p <- Split(StripSlashes(s)) :: |p| <= 255
    ensures var received := Parse(Encode(WithPathString(m, s)));
            received.Ok? && PathString(received.value) == StripSlashes(s)
  {
    var sent := WithPathString(m, s);
    var parts := Split(StripSlashes(s));
    MinusMembers(m.opts, URI_PATH);
    DeliveryTheorem(sent);
    SortIsStable(sent.opts);
    OnlyDelivered(Sort(sent.opts), URI_PATH);
    PathReadsBack(m, s);
    assert Only(Sort(sent.opts), URI_PATH) == TextOptions(URI_PATH, parts);
    DeliveredParts(parts);
    OnlyTextOptions(URI_PATH, parts);
    JoinSplit(StripSlashes(s));
  }

  /**
   * A path set by `WithPathString` is the path the receiver reads, without leading slashes
   * (or "/" when there is nothing else), repeated segments and all, if and only if no segment
   * is longer than 255 bytes: not even where an overlong one makes the packet read differently.
   */
  lemma PathSurvivesTheWire(m: Msg, s: Bytes)
    requires s != [] && m.mtype <= 3 && |m.token| <= 8 && Encodable(m.opts)
    ensures var received := Parse(Encode(WithPathString(m, s)));
            received.Ok? && PathString(received.value) == StripSlashes(s)
            <==> forall p <- Split(StripSlashes(s)) :: |p| <= 255
    ensures (forall p <- Split(StripSlashes(s)) :: |p| <= MAX_OPTION_LENGTH) ==> Parse(Encode(WithPathString(m, s))).Ok?
  {
    if forall p <- Split(StripSlashes(s)) :: |p| <= MAX_OPTION_LENGTH {
      MinusMembers(m.opts, URI_PATH);
      DeliveryTheorem(WithPathString(m, s));
    }
    if forall p <- Split(StripSlashes(s)) :: |p| <= 255 {
      ShortPathArrives(m, s);
    } else {
      var data := Encode(WithPathString(m, s));
      if Parse(data).Ok? {
        ParsedIsWellFormed(data);
        LegalPathFits(Parse(data).value);
      }
    }
  }
}
