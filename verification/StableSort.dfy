/**
 * The stable sort of an option list by option number (`sort.Stable(&m.opts)`,
 * message_parse.go:219; `Less` and `Swap`, message_options.go:198-207).
 */
module StableSort {
  import opened Basics
  import opened Options

  /** The options carrying number `id`, in order of appearance. */
  function Only(opts: seq<Opt>, id: byte): seq<Opt> {
    if opts == [] then []
    else if opts[0].id == id then [opts[0]] + Only(opts[1..], id)
    else Only(opts[1..], id)
  }

  ghost predicate Sorted(opts: seq<Opt>) {
    forall i, j :: 0 <= i < j < |opts| ==> opts[i].id <= opts[j].id
  }

  /** Same options for every number, in the same order. */
  ghost predicate SameOrder(a: seq<Opt>, b: seq<Opt>) {
    forall id: byte :: Only(a, id) == Only(b, id)
  }

  function Insert(o: Opt, s: seq<Opt>): seq<Opt> {
    if s == [] || o.id <= s[0].id then [o] + s else [s[0]] + Insert(o, s[1..])
  }

  /** The stable sort as a value; `StableSortIsUnique` says it is the only one. */
  function Sort(opts: seq<Opt>): seq<Opt> {
    if opts == [] then [] else Insert(opts[0], Sort(opts[1..]))
  }

  lemma OnlyConcat(a: seq<Opt>, b: seq<Opt>, id: byte)
    ensures Only(a + b, id) == Only(a, id) + Only(b, id)
  {
    if a == [] {
      assert a + b == b;
    } else {
      assert (a + b)[1..] == a[1..] + b;
    }
  }

  lemma InsertOnly(o: Opt, s: seq<Opt>, id: byte)
    ensures Only(Insert(o, s), id) == Only([o] + s, id)
  {
    if s == [] || o.id <= s[0].id {
    } else {
      InsertOnly(o, s[1..], id);
      assert ([o] + s)[1..] == s && ([o] + s[1..])[1..] == s[1..];
      assert ([s[0]] + Insert(o, s[1..]))[1..] == Insert(o, s[1..]);
    }
  }

  lemma InsertSorted(o: Opt, s: seq<Opt>)
    requires Sorted(s)
    ensures Sorted(Insert(o, s))
    ensures forall x <- Insert(o, s) :: x == o || x in s
  {
    if s == [] || o.id <= s[0].id {
    } else {
      InsertSorted(o, s[1..]);
      var t := Insert(o, s[1..]);
      assert forall x <- t :: s[0].id <= x.id;
      assert Insert(o, s) == [s[0]] + t;
    }
  }

  /** The sort orders by number and keeps the options of each number in their order. */
  lemma {:induction false} SortIsStable(opts: seq<Opt>)
    ensures Sorted(Sort(opts))
    ensures SameOrder(Sort(opts), opts)
  {
    if opts != [] {
      SortIsStable(opts[1..]);
      InsertSorted(opts[0], Sort(opts[1..]));
      forall id: byte
        ensures Only(Sort(opts), id) == Only(opts, id)
      {
        InsertOnly(opts[0], Sort(opts[1..]), id);
        assert ([opts[0]] + Sort(opts[1..]))[1..] == Sort(opts[1..]);
      }
    }
  }

  lemma OnlyMember(opts: seq<Opt>, id: byte)
    ensures forall o <- Only(opts, id) :: o in opts && o.id == id
    ensures forall o <- opts :: o.id == id ==> o in Only(opts, id)
  {
  }

  /** Two sorted lists that agree on every number are the same list. */
  lemma {:induction false} StableSortIsUnique(a: seq<Opt>, b: seq<Opt>)
    requires Sorted(a) && Sorted(b) && SameOrder(a, b)
    ensures a == b
  {
    assert a != [] ==> Only(a, a[0].id) != [];
    assert b != [] ==> Only(b, b[0].id) != [];
    if a != [] && b != [] {
      OnlyMember(a, b[0].id);
      OnlyMember(b, a[0].id);
      assert b[0] in Only(b, b[0].id) && b[0] in Only(a, b[0].id);
      assert a[0] in Only(a, a[0].id) && a[0] in Only(b, a[0].id);
      assert a[0] == Only(a, a[0].id)[0] == Only(b, b[0].id)[0] == b[0];
      forall id: byte
        ensures Only(a[1..], id) == Only(b[1..], id)
      {
        assert Only(a, id) == Only(b, id);
        assert id == a[0].id ==> Only(a[1..], id) == Only(a, id)[1..] && Only(b[1..], id) == Only(b, id)[1..];
      }
      StableSortIsUnique(a[1..], b[1..]);
      assert a == [a[0]] + a[1..] && b == [b[0]] + b[1..];
    }
  }

  /** A sorted list is left alone, so sorting twice is sorting once. */
  lemma SortIdempotent(opts: seq<Opt>)
    ensures Sorted(opts) ==> Sort(opts) == opts
    ensures Sort(Sort(opts)) == Sort(opts)
  {
    SortIsStable(opts);
    if Sorted(opts) {
      StableSortIsUnique(Sort(opts), opts);
    }
    SortIsStable(Sort(opts));
    StableSortIsUnique(Sort(Sort(opts)), Sort(opts));
  }

  /** Sorting neither adds nor loses an option. */
  lemma SortMembers(opts: seq<Opt>)
    ensures forall o :: o in Sort(opts) <==> o in opts
  {
    SortIsStable(opts);
    forall o
      ensures o in Sort(opts) <==> o in opts
    {
      OnlyMember(opts, o.id);
      OnlyMember(Sort(opts), o.id);
      assert Only(Sort(opts), o.id) == Only(opts, o.id);
    }
  }

  /** Exchanging neighbours with different numbers keeps every number's order. */
  lemma SwapKeepsOrder(s: seq<Opt>, j: nat)
    requires 0 < j < |s| && s[j].id != s[j - 1].id
    ensures SameOrder(s[j := s[j - 1]][j - 1 := s[j]], s)
  {
    var t := s[j := s[j - 1]][j - 1 := s[j]];
    var pre, post := s[..j - 1], s[j + 1..];
    assert s == pre + ([s[j - 1]] + ([s[j]] + post));
    assert t == pre + ([s[j]] + ([s[j - 1]] + post));
    forall id: byte
      ensures Only(t, id) == Only(s, id)
    {
      OnlyConcat(pre, [s[j - 1]] + ([s[j]] + post), id);
      OnlyConcat([s[j - 1]], [s[j]] + post, id);
      OnlyConcat([s[j]], post, id);
      OnlyConcat(pre, [s[j]] + ([s[j - 1]] + post), id);
      OnlyConcat([s[j]], [s[j - 1]] + post, id);
      OnlyConcat([s[j - 1]], post, id);
    }
  }

  /** `options.Less`, with its tie-break on the positions. */
  predicate Less(opts: seq<Opt>, i: nat, j: nat)
    requires i < |opts| && j < |opts|
  {
    if opts[i].id == opts[j].id then i < j else opts[i].id < opts[j].id
  }

  /**
   * The insertion sort that `sort.Stable` runs on a short list, with this `Less` and
   * the exchange of neighbours. The tie-break never asks for a swap, because the loop
   * only compares a position with the one before it.
   */
  method SortInPlace(a: array<Opt>)
    modifies a
    ensures a[..] == Sort(old(a[..]))
  {
    ghost var was := a[..];
    var i := 1;
    while i < a.Length
      invariant 1 <= i && (i <= a.Length || a.Length == 0)
      invariant SameOrder(a[..], was)
      invariant forall p, q :: 0 <= p < q < i && q < a.Length ==> a[p].id <= a[q].id
    {
      var j := i;
      while j > 0 && Less(a[..], j, j - 1)
        invariant 0 <= j <= i
        invariant SameOrder(a[..], was)
        invariant forall p, q :: 0 <= p < q <= i && q != j ==> a[p].id <= a[q].id
      {
        ghost var before := a[..];
        SwapKeepsOrder(before, j);
        a[j], a[j - 1] := a[j - 1], a[j];
        assert a[..] == before[j := before[j - 1]][j - 1 := before[j]];
        j := j - 1;
      }
      i := i + 1;
    }
    SortIsStable(was);
    StableSortIsUnique(a[..], Sort(was));
  }
}
