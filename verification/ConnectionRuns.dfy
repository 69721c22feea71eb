/**
 A connection over a sequence of rounds, as a value: what it has been offered, and
 why it is still open or was dropped.
 */
module ConnectionRuns {
  import opened Basics
  import opened Codec
  import opened Streams
  import opened Connections

  /** The byte stream the kernel offers over a sequence of rounds. */
  function Offer(rounds: seq<Round>): Bytes {
    if rounds == [] then [] else Offer(rounds[..|rounds| - 1]) + Incoming(rounds[|rounds| - 1])
  }

  lemma OfferMore(rounds: seq<Round>, round: Round)
    ensures Offer(rounds + [round]) == Offer(rounds) + Incoming(round)
  {
    assert (rounds + [round])[..|rounds|] == rounds;
  }

  /** One more round: the connection has still been offered everything. */
  lemma StillOffered(before: Log, after: Log, stream: Bytes, more: Bytes)
    requires Offered(before, stream) && !before.breached
    requires before.received <= after.received <= before.received + more
    requires before.failed ==> after.failed && after.received == before.received
    requires !after.failed && !after.breached ==> after.received == before.received + more
    ensures Offered(after, stream + more)
  {
    if before.failed {
      assert after.received <= stream <= stream + more;
    } else {
      assert before.received == stream;
    }
  }

  /** The peer was seen to be gone in some round. */
  ghost predicate PeerSeenGone(rounds: seq<Round>) {
    exists i :: 0 <= i < |rounds| && PeerGone(rounds[i])
  }

  /** No round reported an error, and all re-armed the connection. */
  ghost predicate AllRearmed(rounds: seq<Round>) {
    forall i :: 0 <= i < |rounds| ==> !rounds[i].events.error && rounds[i].rearmed
  }

  /** The kernel broke the socket in this round: on reading, or on writing some of at most `total` bytes. */
  ghost predicate SocketBroke(round: Round, total: nat) {
    || (Reads(round.events) && StopOf(round.recvs).ReadBroken?)
    || (!round.events.error && round.events.writable && exists n: nat :: n <= total && WriteBreaks(n, round.sends))
  }

  /** What a connection is after it has been through `rounds`. */
  ghost predicate After(v: View, limit: nat, rounds: seq<Round>, kept: bool) {
    && Sensible(v, limit) && Offered(v.log, Offer(rounds))
    && (v.peerClosed ==> PeerSeenGone(rounds))
    && (v.socketFailed ==> rounds != [] && SocketBroke(rounds[|rounds| - 1], |v.log.sent| + |v.log.pending|))
    && if kept then
         && !v.closeImmediately && !v.thrown && AllRearmed(rounds)
         && (!v.log.failed && PeerSeenGone(rounds) ==> v.peerClosed)
       else
         && rounds != []
         && var last := rounds[|rounds| - 1];
         last.events.error || !last.rearmed || v.closeImmediately || v.thrown
  }

  lemma Begins(v: View, limit: nat)
    requires Sensible(v, limit) && v.log.received == [] && !v.closeImmediately && !v.thrown && !v.peerClosed && !v.socketFailed
    ensures After(v, limit, [], true)
  {
    hide Coherent, Settled, Overflowed;
  }

  lemma PeerSeenMore(rounds: seq<Round>, round: Round)
    ensures PeerSeenGone(rounds + [round]) <==> PeerSeenGone(rounds) || PeerGone(round)
    ensures AllRearmed(rounds + [round]) <==> AllRearmed(rounds) && !round.events.error && round.rearmed
  {
    hide PeerGone;
    var more := rounds + [round];
    assert more[|rounds|] == round;
    assert forall i :: 0 <= i < |rounds| ==> more[i] == rounds[i];
    if PeerSeenGone(rounds) {
      var i :| 0 <= i < |rounds| && PeerGone(rounds[i]);
      assert PeerGone(more[i]);
    }
    if AllRearmed(more) {
      assert !more[|rounds|].events.error && more[|rounds|].rearmed;
      forall i | 0 <= i < |rounds| ensures !rounds[i].events.error && rounds[i].rearmed {
        assert !more[i].events.error && more[i].rearmed;
      }
    }
  }

  /** A round that breaks the socket says so itself. */
  lemma BreakIsSeen(v: View, round: Round, v': View, keep: bool)
    requires RoundStep(v, round, v', keep) && !v.socketFailed && v'.socketFailed
    ensures SocketBroke(round, |v'.log.sent| + |v'.log.pending|)
  {
    hide Arriving, Leaving, WriteBreaks, StopOf;
    if Writes(v, round, v') && WriteBreaks(Unsent(v, v'), round.sends) {
      var n: nat := Unsent(v, v');
      assert n <= |v'.log.sent| + |v'.log.pending|;
    }
  }

  /** Every round that a worker lets a connection handle keeps the account. */
  lemma Steps(v: View, limit: nat, rounds: seq<Round>, round: Round, v': View, keep: bool)
    requires After(v, limit, rounds, true) && RoundStep(v, round, v', keep) && Sensible(v', limit)
    ensures After(v', limit, rounds + [round], keep)
  {
    OfferMore(rounds, round);
    PeerSeenMore(rounds, round);
    assert !v.log.breached && !v.socketFailed by {
      hide Coherent, Settled, Overflowed, PeerGone, RoundStep, Offered, Offer;
    }
    if v'.socketFailed {
      BreakIsSeen(v, round, v', keep);
    }
    assert (rounds + [round])[|rounds|] == round;
    hide Sensible, Offered, Offer, PeerSeenGone, AllRearmed, SocketBroke, Arriving, Leaving, WriteBreaks, StopOf;
    StillOffered(v.log, v'.log, Offer(rounds), Incoming(round));
    if keep && PeerGone(round) && !v'.log.failed {
      assert !v'.log.breached && !v.closeImmediately by {
        KeptIsOpen(v', limit);
      }
    }
  }

  lemma KeptIsOpen(v: View, limit: nat)
    requires Sensible(v, limit) && !v.closeImmediately && !v.thrown
    ensures !v.log.breached && !v.socketFailed
    ensures v.log.pending == [] ==> !v.peerClosed && !v.log.failed
  {
    hide Coherent, Settled, Overflowed;
  }

  /**
   Why a connection is open or was dropped, in terms of what the kernel said and
   what is due.  An open one still has something to write, or its peer may still
   send and its stream is well formed so far.  A dropped one had an error event, was
   not re-armed, could not queue a response, had its socket broken by the kernel, or
   had written everything and had nothing more to expect.
   */
  ghost predicate Justified(rounds: seq<Round>, kept: bool, sent: nat, pending: nat, cutOff: bool) {
    var over := pending == 0 && (PeerSeenGone(rounds) || Parse(Offer(rounds)).ending.Broken?);
    if kept then !cutOff && AllRearmed(rounds) && !over
    else
      && rounds != []
      && var last := rounds[|rounds| - 1];
      last.events.error || !last.rearmed || cutOff || SocketBroke(last, sent + pending) || over
  }

  lemma AfterIsJustified(v: View, limit: nat, rounds: seq<Round>, kept: bool)
    requires After(v, limit, rounds, kept)
    ensures Justified(rounds, kept, |v.log.sent|, |v.log.pending|, v.log.breached)
  {
    assert !v.log.breached ==> (v.log.failed <==> Parse(Offer(rounds)).ending.Broken?) by {
      hide Coherent, Settled, Overflowed, Offered, Parse;
      WholeStream(v.log, Offer(rounds));
    }
    hide Coherent, Settled, Overflowed, Offered, Offer, PeerSeenGone, AllRearmed, SocketBroke, Parse;
    if kept {
      KeptIsOpen(v, limit);
    }
  }

  // ---- What the kernel's answers amount to, said directly ----

  /** The bytes of the successful reads among some answers, in order. */
  function ReadBytes(script: seq<RecvResult>): Bytes {
    if script == [] then [] else (if script[0].Received? then script[0].bytes else []) + ReadBytes(script[1..])
  }

  /**
   A pass of reads goes on through interruptions and data up to the first other
   answer, and delivers all bytes before that: the end of the stream, a failure, or
   nothing more for now.
   */
  lemma {:induction false} ReadsGoOn(script: seq<RecvResult>, n: nat)
    requires n <= |script|
    requires forall i :: 0 <= i < n ==> script[i].RecvInterrupted? || (script[i].Received? && script[i].bytes != [])
    requires n < |script| ==> !script[n].RecvInterrupted? && !(script[n].Received? && script[n].bytes != [])
    ensures Arriving(script) == ReadBytes(script[..n])
    ensures StopOf(script).PeerDone? <==> n < |script| && script[n] == Received([])
    ensures StopOf(script).ReadBroken? <==> n < |script| && script[n].RecvFailed?
    decreases n
  {
    if 0 < n {
      ReadsGoOn(script[1..], n - 1);
      assert script[..n][1..] == script[1..][..n - 1];
    }
  }

  /** The bytes the kernel accepted among some answers. */
  function SentCount(script: seq<SendResult>): nat {
    if script == [] then 0 else (if script[0].Accepted? then script[0].count else 0) + SentCount(script[1..])
  }

  /**
   A pass of writes goes on through interruptions and partial sends until nothing is
   pending or another answer stops it; it breaks the socket exactly if that answer
   is a failure or a send of nothing, while bytes are pending.
   */
  lemma {:induction false} WritesGoOn(pending: nat, script: seq<SendResult>, n: nat)
    requires n <= |script|
    requires forall i :: 0 <= i < n ==> script[i].SendInterrupted? || (script[i].Accepted? && script[i].count > 0)
    requires n < |script| ==> !script[n].SendInterrupted? && !(script[n].Accepted? && script[n].count > 0)
    ensures Leaving(pending, script) == if SentCount(script[..n]) <= pending then SentCount(script[..n]) else pending
    ensures WriteBreaks(pending, script) <==>
              SentCount(script[..n]) < pending && n < |script| && (script[n].SendFailed? || script[n] == Accepted(0))
    decreases n
  {
    if 0 < n && 0 < pending {
      var left := if script[0].SendInterrupted? then pending else if script[0].count <= pending then pending - script[0].count else 0;
      WritesGoOn(left, script[1..], n - 1);
      assert script[..n][1..] == script[1..][..n - 1];
      if left == 0 {
        NothingToWrite(script[1..]);
      }
    }
    if pending == 0 {
      NothingToWrite(script);
    }
  }

  /**
   One round, by the event's own bits.  A readable or hung-up connection that is open
   and sound reads all that arrives; a writable one sends what the kernel takes; an
   error event does neither.
   */
  lemma RoundByEvent(v: View, round: Round, v': View, keep: bool, limit: nat)
    requires RoundStep(v, round, v', keep) && Sensible(v', limit) && !v.closeImmediately
    ensures var e := round.events;
            && (e.error ==> !keep && v'.log.received == v.log.received && v'.log.sent == v.log.sent)
            && (!e.error && (e.readable || e.hangup) && !v'.log.failed && !v'.log.breached ==>
                  v'.log.received == v.log.received + Arriving(round.recvs))
            && (!e.readable && !e.hangup ==> v'.log.received == v.log.received)
            && (!e.writable ==> v'.log.sent == v.log.sent)
            && (keep && e.writable ==>
                  |v'.log.sent| == |v.log.sent| + Leaving(|v'.log.sent| + |v'.log.pending| - |v.log.sent|, round.sends))
            && (keep && e.hangup ==> v'.peerClosed)
            && (keep ==> round.rearmed && !v'.closeImmediately && !v'.thrown)
  {
    hide Arriving, Leaving, WriteBreaks, StopOf, Coherent, Settled, Overflowed;
  }
}
