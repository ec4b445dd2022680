/** The message value and the accessors on its option list (message.go). */
module Messages {
  import opened Basics
  import opened Options
  import opened StableSort

  const CONFIRMABLE: byte := 0
  const NON_CONFIRMABLE: byte := 1
  const ACKNOWLEDGEMENT: byte := 2
  const RESET: byte := 3

  const CODE_EMPTY: byte := 0
  const CODE_CONTINUE: byte := 95
  const CODE_NOT_FOUND: byte := 132
  const CODE_INTERNAL_SERVER_ERROR: byte := 160

  /**
   * `Message`. The last four fields are not on the wire: `packetSize` is the length of the
   * datagram a message was parsed from (0 for a local one), the other three are in `Meta`.
   */
  datatype Msg = Msg(
    mtype: byte, code: byte, mid: uint16, token: Bytes, payload: Bytes, opts: seq<Opt>,
    packetSize: nat, blockSize: nat, maxSize: nat, addr: Bytes)

  /** `m.Option(id)`: the first value, if any. */
  function First(opts: seq<Opt>, id: byte): Option<Value> {
    if opts == [] then None
    else if opts[0].id == id then Some(opts[0].value)
    else First(opts[1..], id)
  }

  /** `options.Minus`: everything but the options numbered `id`. */
  function Minus(opts: seq<Opt>, id: byte): seq<Opt> {
    if opts == [] then []
    else if opts[0].id != id then [opts[0]] + Minus(opts[1..], id)
    else Minus(opts[1..], id)
  }

  /** `WithOption(id, v, true)`: drop the old values, append the new one. */
  function With(opts: seq<Opt>, id: byte, v: Value): seq<Opt> {
    Minus(opts, id) + [Opt(id, v)]
  }

  /** The first value depends only on the options of that number. */
  lemma FirstIsFirstOnly(opts: seq<Opt>, id: byte)
    ensures First(opts, id) == if Only(opts, id) == [] then None else Some(Only(opts, id)[0].value)
  {
  }

  lemma OnlyMinus(opts: seq<Opt>, id: byte, x: byte)
    ensures Only(Minus(opts, id), x) == if x == id then [] else Only(opts, x)
  {
    if opts != [] && opts[0].id != id {
      assert ([opts[0]] + Minus(opts[1..], id))[1..] == Minus(opts[1..], id);
    }
  }

  /** Setting an option leaves exactly that value under its number and no other number touched. */
  lemma WithReplaces(opts: seq<Opt>, id: byte, v: Value)
    ensures Only(With(opts, id, v), id) == [Opt(id, v)]
    ensures First(With(opts, id, v), id) == Some(v)
    ensures forall x: byte :: x != id ==> Only(With(opts, id, v), x) == Only(opts, x)
    ensures First(Minus(opts, id), id) == None
    ensures forall x: byte :: x != id ==> Only(Minus(opts, id), x) == Only(opts, x)
  {
    forall x: byte
      ensures Only(With(opts, id, v), x) == if x == id then [Opt(id, v)] else Only(opts, x)
      ensures Only(Minus(opts, id), x) == if x == id then [] else Only(opts, x)
    {
      OnlyConcat(Minus(opts, id), [Opt(id, v)], x);
      OnlyMinus(opts, id, x);
    }
    FirstIsFirstOnly(With(opts, id, v), id);
    FirstIsFirstOnly(Minus(opts, id), id);
  }

  lemma MinusMembers(opts: seq<Opt>, id: byte)
    ensures forall o :: o in Minus(opts, id) <==> o in opts && o.id != id
  {
  }

  /** `IsRequest`. */
  predicate IsRequest(m: Msg) {
    m.code < 10
  }

  /** `MakeReply`: an acknowledgement for `m` carrying its token unless the code is empty. */
  function MakeReply(m: Msg, code: byte, payload: Bytes): Msg {
    Msg(ACKNOWLEDGEMENT, code, m.mid, if code != CODE_EMPTY then m.token else [], payload, [], 0, m.blockSize, 0, [])
  }
}
