/** Pumping bytes between the kubelet stream and a pod connection: copyPortForward
    (cmd/portoshim/portforward.go).

    Two goroutines copy, one in each direction, and report on channels of capacity one; the
    caller selects. The steps of the three, of the two peers and of the context interleave in
    any way, and every read or write may fail.
 */
module PortForward {
  import opened GoStrings

  type Bytes = string

  datatype Err = Nil | Failed

  /** io.Copy: what was read and is not yet written; or how it ended. */
  datatype Pc = Copying(buf: Bytes) | Ended(err: Err) | Reporting(err: Err) | Sent(err: Err)

  /** One direction: what the source sent so far, how much was read, what the sink got. */
  datatype Copy = Copy(source: Bytes, closed: bool, read: nat, sink: Bytes, pc: Pc, ch: Option<Err>)

  datatype Return = FromPod(err: Err) | FromClient | FromContext

  /** inOpen: the caller still selects on inCh. */
  datatype Sys = Sys(out_: Copy, in_: Copy, halfClosed: bool, inOpen: bool, done: bool, result: Option<Return>)

  function Init(): Sys {
    var c := Copy("", false, 0, "", Copying(""), None);
    Sys(c, c, false, true, false, None)
  }

  // ---- the steps of one direction

  /** The peer sends more, or closes. */
  ghost predicate Feed(c: Copy, c': Copy) {
    && !c.closed
    && ((exists more: Bytes :: c' == c.(source := c.source + more)) || c' == c.(closed := true))
  }

  ghost predicate ReadSome(c: Copy, n: nat, c': Copy) {
    c.pc == Copying("") && c.read < n <= |c.source| && c' == c.(read := n, pc := Copying(c.source[c.read..n]))
  }

  ghost predicate WriteAll(c: Copy, c': Copy) {
    c.pc.Copying? && c.pc.buf != "" && c' == c.(sink := c.sink + c.pc.buf, pc := Copying(""))
  }

  /** A write that fails has written a part. */
  ghost predicate WriteFails(c: Copy, k: nat, c': Copy) {
    c.pc.Copying? && k <= |c.pc.buf| && c' == c.(sink := c.sink + c.pc.buf[..k], pc := Ended(Failed))
  }

  ghost predicate ReadEnds(c: Copy, c': Copy) {
    && c.pc == Copying("")
    && (c' == c.(pc := Ended(Failed)) || (c.closed && c.read == |c.source| && c' == c.(pc := Ended(Nil))))
  }

  /** The only send on the channel; it blocks while the channel is full. */
  ghost predicate Send(c: Copy, c': Copy) {
    c.pc.Reporting? && c.ch.None? && c' == c.(ch := Some(c.pc.err), pc := Sent(c.pc.err))
  }

  ghost predicate CopyStep(c: Copy, c': Copy) {
    || Feed(c, c')
    || (exists n: nat :: ReadSome(c, n, c'))
    || WriteAll(c, c')
    || (exists k: nat :: WriteFails(c, k, c'))
    || ReadEnds(c, c')
    || Send(c, c')
  }

  // ---- the steps of the whole

  /** Before it reports, the goroutine for the client direction half-closes the connection. */
  ghost predicate Finish(s: Sys, s': Sys) {
    || (s.out_.pc.Ended? && s' == s.(out_ := s.out_.(pc := Reporting(s.out_.pc.err))))
    || (s.in_.pc.Ended? && s' == s.(in_ := s.in_.(pc := Reporting(s.in_.pc.err)), halfClosed := true))
  }

  /** The three cases of the select; it is over when there is a result. */
  ghost predicate Select(s: Sys, s': Sys) {
    && s.result.None?
    && (|| (s.out_.ch.Some? && s' == s.(out_ := s.out_.(ch := None), result := Some(FromPod(s.out_.ch.value))))
        || (s.inOpen && s.in_.ch.Some?
            && s' == s.(in_ := s.in_.(ch := None), inOpen := s.in_.ch.value.Failed?,
                        result := if s.in_.ch.value.Failed? then Some(FromClient) else None))
        || (s.done && s' == s.(result := Some(FromContext))))
  }

  ghost predicate Next(s: Sys, s': Sys) {
    || (exists c :: CopyStep(s.out_, c) && s' == s.(out_ := c))
    || (exists c :: CopyStep(s.in_, c) && s' == s.(in_ := c))
    || Finish(s, s')
    || Select(s, s')
    || s' == s.(done := true)
  }

  ghost predicate IsRun(run: seq<Sys>) {
    && run != [] && run[0] == Init()
    && forall i {:trigger run[i]} :: 0 < i < |run| ==> Next(run[i - 1], run[i])
  }

  // ---- the invariant

  /** What arrived is a prefix of what was sent; a clean end means that all of it arrived. */
  ghost predicate CopyInv(c: Copy) {
    && c.read <= |c.source|
    && c.sink <= c.source
    && (c.pc.Copying? ==> c.sink + c.pc.buf == c.source[..c.read])
    && (!c.pc.Copying? && c.pc.err.Nil? ==> c.closed && c.sink == c.source)
    && (c.ch.Some? ==> c.pc == Sent(c.ch.value))
  }

  lemma CopyStepInv(c: Copy, c': Copy)
    requires CopyInv(c) && CopyStep(c, c')
    ensures CopyInv(c')
    ensures c.pc.Sent? ==> c'.pc == c.pc && c'.ch == c.ch
    ensures c'.ch.Some? && c.ch.None? ==> c.pc.Reporting?
    ensures c.closed ==> c'.source == c.source && c'.closed
    ensures (c'.pc.Reporting? || c'.pc.Sent?) ==> c.pc.Reporting? || c.pc.Sent?
  {
    if Feed(c, c') {
      assert c.source <= c'.source;
      assert c.source[..c.read] == c'.source[..c.read];
    } else if n: nat :| ReadSome(c, n, c') {
      assert c.source[..c.read] + c.source[c.read..n] == c.source[..n];
      assert c.sink + "" == c.sink;
    } else if WriteAll(c, c') {
      assert c'.sink + "" == c'.sink;
      assert c'.sink == c.source[..c.read];
    } else if k: nat :| WriteFails(c, k, c') {
      assert c'.sink <= c.sink + c.pc.buf;
      assert c.source[..c.read] <= c.source;
    } else if ReadEnds(c, c') {
      assert c.sink + "" == c.sink;
      assert c.source[..|c.source|] == c.source;
    }
  }

  ghost predicate Inv(s: Sys) {
    && CopyInv(s.out_) && CopyInv(s.in_)
    && (s.halfClosed <==> s.in_.pc.Reporting? || s.in_.pc.Sent?)
    && (s.result == None ==> (s.out_.pc.Sent? ==> s.out_.ch.Some?))
    && (s.result == None && s.in_.pc.Sent? ==> (s.in_.ch.Some? <==> s.inOpen) && (s.in_.ch.None? ==> s.in_.pc == Sent(Nil)))
    && (s.result == None && !s.in_.pc.Sent? ==> s.inOpen)
    && (match s.result
        case None => true
        case Some(FromPod(err)) => s.out_.pc == Sent(err)
        case Some(FromClient) => s.in_.pc == Sent(Failed)
        case Some(FromContext) => s.done)
  }

  lemma NextInv(s: Sys, s': Sys)
    requires Inv(s) && Next(s, s')
    ensures Inv(s')
  {
    hide CopyStep, Finish, Select;
    if c :| CopyStep(s.out_, c) && s' == s.(out_ := c) {
      CopyStepInv(s.out_, c);
      SendsOnce(s.out_, c);
    } else if c :| CopyStep(s.in_, c) && s' == s.(in_ := c) {
      CopyStepInv(s.in_, c);
      SendsOnce(s.in_, c);
    } else if Finish(s, s') {
      FinishInv(s, s');
    } else if Select(s, s') {
      SelectInv(s, s');
    }
  }

  lemma SendsOnce(c: Copy, c': Copy)
    requires CopyStep(c, c')
    ensures c'.pc.Sent? && !c.pc.Sent? ==> c'.ch == Some(c'.pc.err)
    ensures c'.pc.Reporting? <==> c.pc.Reporting? && !c'.pc.Sent?
  {
  }

  lemma FinishInv(s: Sys, s': Sys)
    requires Inv(s) && Finish(s, s')
    ensures Inv(s')
  {
  }

  lemma SelectInv(s: Sys, s': Sys)
    requires Inv(s) && Select(s, s')
    ensures Inv(s')
  {
  }

  lemma {:induction false} RunInv(run: seq<Sys>, i: nat)
    requires IsRun(run) && i < |run|
    ensures Inv(run[i])
  {
    if i > 0 {
      RunInv(run, i - 1);
      NextInv(run[i - 1], run[i]);
    }
  }

  // ---- main results

  /** Main result: nil is returned only when the pod has closed and every byte it sent has
      been written to the client. */
  lemma NilMeansAllDelivered(run: seq<Sys>, i: nat)
    requires IsRun(run) && i < |run| && run[i].result == Some(FromPod(Nil))
    ensures run[i].out_.closed && run[i].out_.sink == run[i].out_.source
  {
    RunInv(run, i);
  }

  /** Main result: the pump ends only because the pod side ended, the client side failed or
      the context is done; a clean end of the client side is not among the reasons. */
  lemma CleanClientEndDoesNotEnd(run: seq<Sys>, i: nat)
    requires IsRun(run) && i < |run| && run[i].result.Some?
    ensures run[i].out_.pc.Sent? || run[i].in_.pc == Sent(Failed) || run[i].done
  {
    RunInv(run, i);
  }

  /** Main result: a goroutine that wants to report finds its channel empty, so that it never
      blocks, whether or not anybody still listens. */
  lemma NeverBlocks(run: seq<Sys>, i: nat)
    requires IsRun(run) && i < |run|
    ensures run[i].out_.pc.Reporting? ==> exists c :: Send(run[i].out_, c)
    ensures run[i].in_.pc.Reporting? ==> exists c :: Send(run[i].in_, c)
  {
    RunInv(run, i);
    var o, n := run[i].out_, run[i].in_;
    if o.pc.Reporting? { assert Send(o, o.(ch := Some(o.pc.err), pc := Sent(o.pc.err))); }
    if n.pc.Reporting? { assert Send(n, n.(ch := Some(n.pc.err), pc := Sent(n.pc.err))); }
  }

  /** In both directions what arrives is always a prefix of what was sent, and the pod sees a
      half-close after a clean client end only when it has got everything. */
  lemma PrefixesArrive(run: seq<Sys>, i: nat)
    requires IsRun(run) && i < |run|
    ensures run[i].out_.sink <= run[i].out_.source && run[i].in_.sink <= run[i].in_.source
    ensures run[i].halfClosed ==> run[i].in_.pc.Reporting? || run[i].in_.pc.Sent?
    ensures run[i].in_.pc in {Reporting(Nil), Sent(Nil)} ==> run[i].in_.closed && run[i].in_.sink == run[i].in_.source
  {
    RunInv(run, i);
  }

  /** Once the pod side has reported and nothing has been returned yet, the select can return. */
  lemma PumpCanEnd(run: seq<Sys>, i: nat)
    requires IsRun(run) && i < |run| && run[i].out_.pc.Sent? && run[i].result.None?
    ensures exists s' :: Select(run[i], s') && s'.result == Some(FromPod(run[i].out_.pc.err))
  {
    RunInv(run, i);
    var s := run[i];
    assert Select(s, s.(out_ := s.out_.(ch := None), result := Some(FromPod(s.out_.ch.value))));
  }
}
