/**
 * One iteration of the RX/TX loop (FGConnection._rx_process) and the FDM
 * version switch (FDMConnection.__init__), in the two versions of the
 * interface: flightgear_python/fg_if.py and the older
 * src/flightgear_python/fg_if.py.
 *
 * An iteration receives one datagram, parses it with the connection's
 * layout, lets the user callback rewrite the record when the parent has
 * posted data, builds the record again and sends it back. The socket is the
 * datagram given and the log of datagrams sent; the callback is a function of
 * the record and the mailbox; the radian correction of the newer version is
 * an uninterpreted function on records.
 */
module RxLoop {
  import opened Wrappers
  import opened Bytes
  import opened Codec
  import opened CodecLaws
  import opened FdmV25
  import opened EventPipes

  /** What an iteration can raise. */
  datatype RxError =
    | CommunicationError          // FGCommunicationError: a version tag mismatch (newer version)
    | AssertionError              // the same mismatch in the older version
    | ConstructError(e: Error)    // any other parse or build error, propagated unchanged
    | NoTxSocket                  // the older version calling sendto on a missing TX socket

  /** FDMConnection accepts only the versions it has a table for. */
  datatype SelectError = NotImplementedError

  /** The user callback: the record and the pipe in, the record to send and the pipe out. */
  type Callback<!M> = (Record, Mailbox<M>) -> (Record, Mailbox<M>)

  /** What an iteration leaves behind: the mailbox, and the datagram sent if any. */
  datatype Outcome<M> = Outcome(box: Mailbox<M>, sent: Option<seq<byte>>)

  /** recvfrom(1024): a longer datagram is cut to its first 1024 bytes. */
  const RecvSize: nat := 1024

  function Received(datagram: seq<byte>): (msg: seq<byte>)
    ensures |msg| <= RecvSize && |msg| <= |datagram|
    ensures msg == datagram[..|msg|]
    ensures |datagram| <= RecvSize ==> msg == datagram
  {
    if |datagram| <= RecvSize then datagram else datagram[..RecvSize]
  }

  // ---------------------------------------------------------------------
  // Version selection
  // ---------------------------------------------------------------------

  /**
   * FDM v24 (fdm_v24.py is not part of this model): a stand-in table whose
   * only known facts are its tag and its 408-byte size.
   */
  function FdmV24Layout(): Layout
  {
    Layout(Big, [Field("version", Tag(24)), Field("_padding", Pad(404))])
  }

  lemma FdmV24Tagged()
    ensures Size(FdmV24Layout()) == 408 && Tagged(FdmV24Layout(), 24)
  {
    var fs := FdmV24Layout().fields;
    assert fs[1..][1..] == [];
    assert fs[1..] == [Field("_padding", Pad(404))];
  }

  /** The table FDMConnection uses for a version, in both versions of the interface. */
  function SelectLayout(version: int): (r: Result<Layout, SelectError>)
    ensures r.Ok? <==> version == 24 || version == 25
    ensures version == 24 ==> r == Ok(FdmV24Layout())
    ensures version == 25 ==> r == Ok(FdmLayout())
  {
    if version == 24 then Ok(FdmV24Layout())
    else if version == 25 then Ok(FdmLayout())
    else Err(NotImplementedError)
  }

  /** The selected table is tagged with its version and has that version's size. */
  lemma SelectedLayoutTagged(version: int)
    requires SelectLayout(version).Ok?
    ensures Tagged(SelectLayout(version).value, version)
    ensures Size(SelectLayout(version).value) == if version == 24 then 408 else 552
  {
    if version == 24 {
      FdmV24Tagged();
    } else {
      FdmTagged();
    }
  }

  // ---------------------------------------------------------------------
  // The iteration, as functions
  // ---------------------------------------------------------------------

  /** The callback runs only when the flag is set and a message is waiting. */
  predicate WillCallBack<M>(box: Mailbox<M>)
  {
    box.flag && box.pending != []
  }

  /** Parsing in the newer version: a tag mismatch becomes FGCommunicationError. */
  function ParseNew(l: Layout, msg: seq<byte>): (r: Result<Record, RxError>)
    ensures r.Ok? <==> Decode(l, msg).Ok?
    ensures Decode(l, msg) == Err(ConstError) ==> r == Err(CommunicationError)
  {
    match Decode(l, msg)
    case Ok(rec) => Ok(rec)
    case Err(e) => if e == ConstError then Err(CommunicationError) else Err(ConstructError(e))
  }

  /** Parsing in the older version: a tag mismatch becomes AssertionError. */
  function ParseOld(l: Layout, msg: seq<byte>): (r: Result<Record, RxError>)
    ensures r.Ok? <==> Decode(l, msg).Ok?
    ensures Decode(l, msg) == Err(ConstError) ==> r == Err(AssertionError)
  {
    match Decode(l, msg)
    case Ok(rec) => Ok(rec)
    case Err(e) => if e == ConstError then Err(AssertionError) else Err(ConstructError(e))
  }

  /** The record to build and the mailbox after the callback step. */
  function CallBack<M>(rec: Record, box: Mailbox<M>, cb: Callback<M>): (Record, Mailbox<M>)
  {
    if WillCallBack(box) then cb(rec, box) else (rec, box)
  }

  /** One iteration of the newer loop; `txConnected` says whether connect_tx was called. */
  function StepNew<M>(l: Layout, datagram: seq<byte>, box: Mailbox<M>, cb: Callback<M>,
                      fix: Record -> Record, txConnected: bool): Result<Outcome<M>, RxError>
  {
    match ParseNew(l, Received(datagram))
    case Err(e) => Err(e)
    case Ok(rec) =>
      var (out, box') := CallBack(fix(rec), box, cb);
      match Encode(l, out)
      case Err(e) => Err(ConstructError(e))
      case Ok(tx) => Ok(Outcome(box', if txConnected then Some(tx) else None))
  }

  /** One iteration of the older loop: no radian correction, and sendto is always called. */
  function StepOld<M>(l: Layout, datagram: seq<byte>, box: Mailbox<M>, cb: Callback<M>,
                      txConnected: bool): Result<Outcome<M>, RxError>
  {
    match ParseOld(l, Received(datagram))
    case Err(e) => Err(e)
    case Ok(rec) =>
      var (out, box') := CallBack(rec, box, cb);
      match Encode(l, out)
      case Err(e) => Err(ConstructError(e))
      case Ok(tx) => if txConnected then Ok(Outcome(box', Some(tx))) else Err(NoTxSocket)
  }

  // ---------------------------------------------------------------------
  // Properties of one iteration
  // ---------------------------------------------------------------------

  lemma ReceivedPrefix(datagram: seq<byte>, n: nat)
    requires n <= |datagram| && n <= RecvSize
    ensures n <= |Received(datagram)| && Received(datagram)[..n] == datagram[..n]
  {
  }

  /** An FDM datagram with a wrong tag stops the newer loop with FGCommunicationError. */
  lemma StepNewTagMismatch<M>(datagram: seq<byte>, box: Mailbox<M>, cb: Callback<M>,
                              fix: Record -> Record, txConnected: bool)
    requires |datagram| >= 4 && datagram[..4] != [0, 0, 0, 25]
    ensures StepNew(FdmLayout(), datagram, box, cb, fix, txConnected) == Err(CommunicationError)
  {
    ReceivedPrefix(datagram, 4);
    FdmDecodeOutcome(Received(datagram));
  }

  /** The same datagram stops the older loop with AssertionError. */
  lemma StepOldTagMismatch<M>(datagram: seq<byte>, box: Mailbox<M>, cb: Callback<M>, txConnected: bool)
    requires |datagram| >= 4 && datagram[..4] != [0, 0, 0, 25]
    ensures StepOld(FdmLayout(), datagram, box, cb, txConnected) == Err(AssertionError)
  {
    ReceivedPrefix(datagram, 4);
    FdmDecodeOutcome(Received(datagram));
  }

  /** A short FDM datagram whose tag is right, or that is too short to hold one, raises
      construct's StreamError in both versions: it is not turned into a communication error. */
  lemma StepShortDatagram<M>(datagram: seq<byte>, box: Mailbox<M>, cb: Callback<M>,
                             fix: Record -> Record, txConnected: bool)
    requires |datagram| < 552 && (|datagram| < 4 || datagram[..4] == [0, 0, 0, 25])
    ensures StepNew(FdmLayout(), datagram, box, cb, fix, txConnected) == Err(ConstructError(StreamError))
    ensures StepOld(FdmLayout(), datagram, box, cb, txConnected) == Err(ConstructError(StreamError))
  {
    FdmDecodeOutcome(datagram);
  }

  /** Without a waiting message the callback is not consulted: any two callbacks give the same step. */
  lemma IdleStepIgnoresCallback<M>(l: Layout, datagram: seq<byte>, box: Mailbox<M>, cb1: Callback<M>,
                                   cb2: Callback<M>, fix: Record -> Record, txConnected: bool)
    requires !WillCallBack(box)
    ensures StepNew(l, datagram, box, cb1, fix, txConnected) == StepNew(l, datagram, box, cb2, fix, txConnected)
    ensures StepOld(l, datagram, box, cb1, txConnected) == StepOld(l, datagram, box, cb2, txConnected)
  {
  }

  /** Without a waiting message the newer loop sends the corrected record unchanged and leaves the mailbox. */
  lemma IdleStepNew<M>(l: Layout, datagram: seq<byte>, box: Mailbox<M>, cb: Callback<M>,
                       fix: Record -> Record, txConnected: bool)
    requires !WillCallBack(box) && Decode(l, Received(datagram)).Ok?
    requires Encode(l, fix(Decode(l, Received(datagram)).value)).Ok?
    ensures var tx := Encode(l, fix(Decode(l, Received(datagram)).value)).value;
      StepNew(l, datagram, box, cb, fix, txConnected) == Ok(Outcome(box, if txConnected then Some(tx) else None))
  {
  }

  /** With a waiting message the newer loop sends what the callback returned, and the pipe is
      as the callback left it. */
  lemma BusyStepNew<M>(l: Layout, datagram: seq<byte>, box: Mailbox<M>, cb: Callback<M>,
                       fix: Record -> Record)
    requires WillCallBack(box) && Decode(l, Received(datagram)).Ok?
    requires Encode(l, cb(fix(Decode(l, Received(datagram)).value), box).0).Ok?
    ensures var (out, box') := cb(fix(Decode(l, Received(datagram)).value), box);
      StepNew(l, datagram, box, cb, fix, true) == Ok(Outcome(box', Some(Encode(l, out).value)))
  {
  }

  /** Without a TX socket the newer loop sends nothing, and the older loop fails once it has built. */
  lemma NoTxSocketStep<M>(l: Layout, datagram: seq<byte>, box: Mailbox<M>, cb: Callback<M>,
                          fix: Record -> Record)
    ensures StepNew(l, datagram, box, cb, fix, false).Ok? ==>
              StepNew(l, datagram, box, cb, fix, false).value.sent == None
    ensures StepOld(l, datagram, box, cb, false).Err?
    ensures ParseOld(l, Received(datagram)).Ok?
            && Encode(l, CallBack(ParseOld(l, Received(datagram)).value, box, cb).0).Ok?
            ==> StepOld(l, datagram, box, cb, false) == Err(NoTxSocket)
  {
  }

  /**
   * The older loop echoes an idle FDM datagram: the first 552 bytes go back
   * unchanged, padding included, and the mailbox is untouched.
   */
  lemma IdleStepOldEchoes<M>(datagram: seq<byte>, box: Mailbox<M>, cb: Callback<M>)
    requires !WillCallBack(box)
    requires 552 <= |datagram| <= RecvSize && datagram[..4] == [0, 0, 0, 25]
    ensures StepOld(FdmLayout(), datagram, box, cb, true) == Ok(Outcome(box, Some(datagram[..552])))
  {
    FdmEncodeDecode(datagram);
  }

  /** The newer loop echoes it too when the radian correction leaves the record as it is. */
  lemma IdleStepNewEchoes<M>(datagram: seq<byte>, box: Mailbox<M>, cb: Callback<M>, fix: Record -> Record)
    requires !WillCallBack(box)
    requires 552 <= |datagram| <= RecvSize && datagram[..4] == [0, 0, 0, 25]
    requires Decode(FdmLayout(), datagram).Ok?
    requires fix(Decode(FdmLayout(), datagram).value) == Decode(FdmLayout(), datagram).value
    ensures StepNew(FdmLayout(), datagram, box, cb, fix, true) == Ok(Outcome(box, Some(datagram[..552])))
  {
    FdmEncodeDecode(datagram);
  }

  /** Bytes after the first 1024 of a datagram never matter. */
  lemma LongDatagramCut<M>(l: Layout, datagram: seq<byte>, box: Mailbox<M>, cb: Callback<M>,
                           fix: Record -> Record, txConnected: bool)
    requires |datagram| > RecvSize
    ensures StepNew(l, datagram, box, cb, fix, txConnected) == StepNew(l, datagram[..RecvSize], box, cb, fix, txConnected)
    ensures StepOld(l, datagram, box, cb, txConnected) == StepOld(l, datagram[..RecvSize], box, cb, txConnected)
  {
  }

  /**
   * With the coalescing pipe, a parent message always reaches the callback:
   * after parent_send the next iteration calls back, and under the one-slot
   * invariant the callback runs exactly when the flag is set.
   */
  lemma CoalescingPipeCallsBack<M>(m: Mailbox<M>, msg: M)
    requires OneSlot(m)
    ensures WillCallBack(Post(m, msg))
    ensures WillCallBack(m) <==> m.flag
  {
  }

  /**
   * With the older pipe, two parent sends before one callback leave the second
   * message pending with the flag clear, so the next iteration does not call
   * back although a message is waiting.
   */
  lemma OlderPipeStrandsSecondMessage<M>(a: M, b: M)
    ensures var box := Take(PostAlways(PostAlways(Empty(), a), b)).1;
      box.pending == [b] && !WillCallBack(box)
  {
    PlainTwoSendsOneReceive(a, b);
  }

  // ---------------------------------------------------------------------
  // The connections
  // ---------------------------------------------------------------------

  function Sent(sent: Option<seq<byte>>): seq<seq<byte>>
  {
    if sent.Some? then [sent.value] else []
  }

  /**
   * FGConnection of flightgear_python/fg_if.py with its table, its pipe, whether
   * a TX socket is connected, and the datagrams sent so far.
   */
  class Connection<M> {
    const layout: Layout
    const pipe: EventPipe<M>
    var txConnected: bool
    var txLog: seq<seq<byte>>

    constructor (l: Layout, p: EventPipe<M>)
      ensures layout == l && pipe == p && !txConnected && txLog == []
    {
      layout := l;
      pipe := p;
      txConnected := false;
      txLog := [];
    }

    /** connect_tx: from now on the loop sends its datagrams. */
    method ConnectTx()
      modifies this
      ensures txConnected && txLog == old(txLog)
    {
      txConnected := true;
    }

    /** _rx_process, one pass of its loop. */
    method RxProcess(datagram: seq<byte>, cb: Callback<M>, fix: Record -> Record) returns (r: Result<(), RxError>)
      modifies this, pipe
      ensures txConnected == old(txConnected)
      ensures var s := StepNew(layout, datagram, old(pipe.State()), cb, fix, txConnected);
        (r.Err? <==> s.Err?) && (s.Err? ==> r.error == s.error && txLog == old(txLog))
        && (s.Ok? ==> pipe.State() == s.value.box && txLog == old(txLog) + Sent(s.value.sent))
    ensures var parsed := ParseNew(layout, Received(datagram));
      (parsed.Err? ==> pipe.State() == old(pipe.State()))
      && (parsed.Ok? ==> pipe.State() == CallBack(fix(parsed.value), old(pipe.State()), cb).1)
    {
      var msg := Received(datagram);
      var parsed := ParseNew(layout, msg);
      if parsed.Err? {
        return Err(parsed.error);
      }
      var s := fix(parsed.value);
      if pipe.IsSet() && pipe.ChildPoll() {
        var (out, box) := cb(s, pipe.State());
        s := out;
        // whatever the callback did to the pipe (child_recv, usually)
        pipe.pending, pipe.flag := box.pending, box.flag;
      }
      var tx := Encode(layout, s);
      if tx.Err? {
        return Err(ConstructError(tx.error));
      }
      if txConnected {
        txLog := txLog + [tx.value];
      }
      r := Ok(());
    }
  }

  /** FDMConnection.__init__: a connection over the table for the version, or NotImplementedError. */
  method FdmConnection<M>(version: int) returns (r: Result<Connection<M>, SelectError>)
    ensures r.Ok? <==> version == 24 || version == 25
    ensures r.Ok? ==> fresh(r.value) && fresh(r.value.pipe) && r.value.layout == SelectLayout(version).value
    ensures r.Ok? ==> r.value.pipe.State() == Empty() && !r.value.txConnected
  {
    var l := SelectLayout(version);
    if l.Err? {
      return Err(l.error);
    }
    var p := new EventPipe<M>();
    var c := new Connection(l.value, p);
    r := Ok(c);
  }

  /** FGConnection of src/flightgear_python/fg_if.py, over the older pipe. */
  class LegacyConnection<M> {
    const layout: Layout
    const pipe: PlainEventPipe<M>
    var txConnected: bool
    var txLog: seq<seq<byte>>

    constructor (l: Layout, p: PlainEventPipe<M>)
      ensures layout == l && pipe == p && !txConnected && txLog == []
    {
      layout := l;
      pipe := p;
      txConnected := false;
      txLog := [];
    }

    method ConnectTx()
      modifies this
      ensures txConnected && txLog == old(txLog)
    {
      txConnected := true;
    }

    /** _rx_process, one pass of its loop. */
    method RxProcess(datagram: seq<byte>, cb: Callback<M>) returns (r: Result<(), RxError>)
      modifies this, pipe
      ensures txConnected == old(txConnected)
      ensures var s := StepOld(layout, datagram, old(pipe.State()), cb, txConnected);
        (r.Err? <==> s.Err?) && (s.Err? ==> r.error == s.error && txLog == old(txLog))
        && (s.Ok? ==> pipe.State() == s.value.box && txLog == old(txLog) + Sent(s.value.sent))
    ensures var parsed := ParseOld(layout, Received(datagram));
      (parsed.Err? ==> pipe.State() == old(pipe.State()))
      && (parsed.Ok? ==> pipe.State() == CallBack(parsed.value, old(pipe.State()), cb).1)
    {
      var msg := Received(datagram);
      var parsed := ParseOld(layout, msg);
      if parsed.Err? {
        return Err(parsed.error);
      }
      var s := parsed.value;
      if pipe.IsSet() && pipe.ChildPoll() {
        var (out, box) := cb(s, pipe.State());
        s := out;
        pipe.pending, pipe.flag := box.pending, box.flag;
      }
      var tx := Encode(layout, s);
      if tx.Err? {
        return Err(ConstructError(tx.error));
      }
      if !txConnected {
        return Err(NoTxSocket);
      }
      txLog := txLog + [tx.value];
      r := Ok(());
    }
  }

  /** FDMConnection.__init__ of the older version. */
  method LegacyFdmConnection<M>(version: int) returns (r: Result<LegacyConnection<M>, SelectError>)
    ensures r.Ok? <==> version == 24 || version == 25
    ensures r.Ok? ==> fresh(r.value) && fresh(r.value.pipe) && r.value.layout == SelectLayout(version).value
    ensures r.Ok? ==> r.value.pipe.State() == Empty() && !r.value.txConnected
  {
    var l := SelectLayout(version);
    if l.Err? {
      return Err(l.error);
    }
    var p := new PlainEventPipe<M>();
    var c := new LegacyConnection(l.value, p);
    r := Ok(c);
  }
}
