/**
 Pipes (kernel/pipe.c): a 512-byte ring with 32-bit counters, and the processes asleep on
 it.  A call to pipewrite or piperead is a sequence of segments, each run with the pipe's
 lock held, from its start or from a wakeup until it sleeps or returns.
 */
module Pipe {
  import opened Sets

  const PIPESIZE: nat := 512
  const UINT: nat := 0x1_0000_0000

  /** How a segment ends. */
  datatype Outcome = Slept(i: nat) | Returned(r: int)

  function Min(a: int, b: int): int {
    if a < b then a else b
  }

  /** A count as a uint. */
  function Wrap(n: nat): nat {
    n % UINT
  }

  /** The counters work past their wrap: slot, increment, empty test and full test. */
  lemma Counters(r: nat, w: nat)
    requires r <= w <= r + PIPESIZE
    ensures Wrap(w) % PIPESIZE == w % PIPESIZE && Wrap(r) % PIPESIZE == r % PIPESIZE
    ensures (Wrap(w) + 1) % UINT == Wrap(w + 1) && (Wrap(r) + 1) % UINT == Wrap(r + 1)
    ensures Wrap(r) == Wrap(w) <==> r == w
    ensures Wrap(w) == (Wrap(r) + PIPESIZE) % UINT <==> w == r + PIPESIZE
  {
    hide Wrap;
    Slot(w);
    Slot(r);
    Plus(w, 1);
    Plus(r, 1);
    Plus(r, PIPESIZE);
    Near(r, w);
    Near(w, r + PIPESIZE);
  }

  lemma Slot(n: nat)
    ensures Wrap(n) % PIPESIZE == n % PIPESIZE
  {
  }

  lemma Plus(n: nat, m: nat)
    requires m <= PIPESIZE
    ensures (Wrap(n) + m) % UINT == Wrap(n + m)
  {
  }

  lemma Near(a: nat, b: nat)
    requires a <= b <= a + PIPESIZE
    ensures Wrap(a) == Wrap(b) <==> a == b
  {
  }

  /** The ring holds bytes r up to w of the stream. */
  ghost predicate Ring(data: seq<int>, stream: seq<int>, r: nat, w: nat) {
    && |data| == PIPESIZE && r <= w == |stream| && w <= r + PIPESIZE
    && forall k :: r <= k < w ==> data[k % PIPESIZE] == stream[k]
  }

  lemma RingPut(data: seq<int>, stream: seq<int>, r: nat, w: nat, c: int)
    requires Ring(data, stream, r, w) && w < r + PIPESIZE
    ensures Ring(data[w % PIPESIZE := c], stream + [c], r, w + 1)
  {
    forall k | r <= k < w ensures data[w % PIPESIZE := c][k % PIPESIZE] == data[k % PIPESIZE] {
      Apart(k, w);
    }
  }

  lemma Apart(a: nat, b: nat)
    requires a < b < a + PIPESIZE
    ensures a % PIPESIZE != b % PIPESIZE
  {
  }

  lemma RingGet(data: seq<int>, stream: seq<int>, r: nat, w: nat)
    requires Ring(data, stream, r, w) && r < w
    ensures data[r % PIPESIZE] == stream[r] && Ring(data, stream, r + 1, w)
  {
  }

  // ------------------------------------------------------------------
  // Pipes as streams

  /** A pipewrite that has slept: its bytes and how many were written. */
  datatype Pending = Pending(src: seq<int>, i: nat)

  /** All bytes ever put in and taken out, the open ends, who sleeps on &nwrite and &nread, and unfinished writes. */
  datatype State = State(
    written: seq<int>, removed: seq<int>, readopen: bool, writeopen: bool,
    writers: set<nat>, readers: set<nat>, calls: map<nat, Pending>)

  function Room(s: State): int {
    |s.removed| + PIPESIZE - |s.written|
  }

  /** How much of a write's source, from byte i on, can be read. */
  function Avail(w: Pending, readable: nat): nat {
    if readable < w.i then 0 else readable - w.i
  }

  /**
   How many bytes a segment of pipewrite puts in the ring: what is left to write, the room
   there is, what can be read from the user, and the checks before killed() is true.
   */
  function Puts(s: State, w: Pending, kills: Option<nat>, readable: nat): (m: nat)
    requires w.i <= |w.src| && Room(s) >= 0
    ensures w.i + m <= |w.src| && m <= Room(s)
  {
    if !s.readopen then 0
    else
      var m := Min(Min(|w.src| - w.i, Room(s)), Avail(w, readable));
      if kills.Some? then Min(m, kills.value) else m
  }

  /** How the segment ends, having put in m bytes. */
  function WriteOut(s: State, w: Pending, kills: Option<nat>, m: nat): Outcome {
    if w.i + m == |w.src| then Returned(w.i + m)
    else if !s.readopen || kills == Some(m) then Returned(-1)
    else if m == Room(s) then Slept(w.i + m)
    else Returned(w.i + m)
  }

  /**
   The loop of pipewrite stops after m bytes exactly when there is a reason to: done, closed,
   killed, full or a bad address.
   */
  lemma Stops(s: State, w: Pending, kills: Option<nat>, readable: nat, m: nat)
    requires Room(s) >= m && w.i + m <= |w.src| && Avail(w, readable) >= m
    requires (kills.Some? ==> m <= kills.value) && (m > 0 ==> s.readopen)
    ensures m == Puts(s, w, kills, readable) <==>
            || w.i + m == |w.src| || !s.readopen || kills == Some(m) || m == Room(s) || m == Avail(w, readable)
  {
  }

  /** A segment of pipewrite: only the return of -1 wakes no reader. */
  function WriteAfter(s: State, pid: nat, w: Pending, kills: Option<nat>, readable: nat): State
    requires w.i <= |w.src| && Room(s) >= 0
  {
    var m := Puts(s, w, kills, readable);
    var out := WriteOut(s, w, kills, m);
    s.(written := s.written + w.src[w.i..w.i + m],
       writers := if out.Slept? then s.writers + {pid} else s.writers,
       readers := if out == Returned(-1) then s.readers else {},
       calls := if out.Slept? then s.calls[pid := w.(i := out.i)] else s.calls - {pid})
  }

  function Waiting(s: State): int {
    |s.written| - |s.removed|
  }

  /** The bytes a segment of piperead takes out: those it delivers, and one more if that one cannot be delivered. */
  function Takes(s: State, n: nat, room: nat): (t: nat)
    requires Waiting(s) >= 0
    ensures t <= Waiting(s)
  {
    Min(Min(n, room + 1), Waiting(s))
  }

  function ReadOut(s: State, n: nat, killed: bool, room: nat): Outcome
    requires Waiting(s) >= 0
  {
    if Waiting(s) == 0 && s.writeopen then if killed then Returned(-1) else Slept(0)
    else Returned(Min(Takes(s, n, room), room))
  }

  function ReadAfter(s: State, pid: nat, n: nat, killed: bool, room: nat): State
    requires Waiting(s) >= 0
  {
    if Waiting(s) == 0 && s.writeopen then if killed then s else s.(readers := s.readers + {pid})
    else
      s.(removed := s.removed + s.written[|s.removed|..|s.removed| + Takes(s, n, room)], writers := {})
  }

  function CloseAfter(s: State, writable: bool): State {
    if writable then s.(writeopen := false, readers := {}) else s.(readopen := false, writers := {})
  }

  // ------------------------------------------------------------------
  // Runs

  /** What the processes do: start a call, continue one after a wakeup, close an end, kill. */
  datatype Event =
    | Write(pid: nat, src: seq<int>, kills: Option<nat>, readable: nat)
    | Read(pid: nat, n: nat, killed: bool, room: nat)
    | Continue(pid: nat, kills: Option<nat>, readable: nat)
    | Close(writable: bool)
    | Kill(pid: nat)

  predicate Formed(s: State) {
    && 0 <= Waiting(s) <= PIPESIZE
    && forall pid :: pid in s.calls ==> s.calls[pid].i <= |s.calls[pid].src|
  }

  /** An event that its process can be at does what its segment does; another is none. */
  function After(s: State, e: Event): State
    requires Formed(s)
  {
    match e
    case Write(pid, src, kills, readable) =>
      if pid in s.calls || pid in s.readers then s else WriteAfter(s, pid, Pending(src, 0), kills, readable)
    case Continue(pid, kills, readable) =>
      if pid !in s.calls || pid in s.writers then s else WriteAfter(s, pid, s.calls[pid], kills, readable)
    case Read(pid, n, killed, room) =>
      if pid in s.calls || pid in s.readers then s else ReadAfter(s, pid, n, killed, room)
    case Close(writable) => CloseAfter(s, writable)
    case Kill(pid) => s.(readers := s.readers - {pid}, writers := s.writers - {pid})
  }

  const START: State := State([], [], true, true, {}, {}, map[])

  /** The state after a run of events on a new pipe. */
  function AfterAll(events: seq<Event>): (s: State)
    ensures Formed(s)
  {
    if events == [] then START
    else
      var s := AfterAll(events[..|events| - 1]);
      StepFormed(s, events[|events| - 1]);
      After(s, events[|events| - 1])
  }

  lemma StepFormed(s: State, e: Event)
    requires Formed(s)
    ensures Formed(After(s, e))
  {
  }

  /** What came out is a prefix of what went in; a writer sleeps only on a full pipe that can still be read. */
  predicate Sound(s: State) {
    s.removed <= s.written && Formed(s) && (s.writers != {} ==> Room(s) == 0 && s.readopen)
  }

  /** A reader sleeps only on an empty pipe that can still be written. */
  predicate Awake(s: State) {
    s.readers != {} ==> Waiting(s) == 0 && s.writeopen
  }

  /** The segment a write event runs, if any. */
  function Writes(s: State, e: Event): Option<Pending> {
    match e
    case Write(pid, src, _, _) => if pid in s.calls || pid in s.readers then None else Some(Pending(src, 0))
    case Continue(pid, _, _) => if pid !in s.calls || pid in s.writers then None else Some(s.calls[pid])
    case _ => None
  }

  /** A writer is killed after it put something in the ring, and before it is done, while a reader sleeps. */
  predicate Strands(s: State, e: Event)
    requires Formed(s)
  {
    && s.readers != {} && Writes(s, e).Some?
    && (var w := Writes(s, e).value;
        var kills, readable := e.kills, e.readable;
        var m := Puts(s, w, kills, readable);
        m > 0 && w.i + m < |w.src| && kills == Some(m))
  }

  lemma WriteSound(s: State, pid: nat, w: Pending, kills: Option<nat>, readable: nat)
    requires Sound(s) && w.i <= |w.src|
    ensures Sound(WriteAfter(s, pid, w, kills, readable))
  {
  }

  lemma ReadSound(s: State, pid: nat, n: nat, killed: bool, room: nat)
    requires Sound(s)
    ensures Sound(ReadAfter(s, pid, n, killed, room))
  {
    if !(Waiting(s) == 0 && s.writeopen) {
      var k, t := |s.removed|, Takes(s, n, room);
      assert s.written[..k] == s.removed;
      assert s.written[..k] + s.written[k..k + t] == s.written[..k + t];
    }
  }

  lemma StepSound(s: State, e: Event)
    requires Sound(s)
    ensures Sound(After(s, e))
  {
    hide WriteAfter, ReadAfter;
    match e
    case Write(pid, src, kills, readable) => WriteSound(s, pid, Pending(src, 0), kills, readable);
    case Continue(pid, kills, readable) =>
      if pid in s.calls {
        WriteSound(s, pid, s.calls[pid], kills, readable);
      }
    case Read(pid, n, killed, room) => ReadSound(s, pid, n, killed, room);
    case _ =>
  }

  /** A reader comes to sleep on a pipe that is not empty exactly when a writer strands it. */
  lemma StepAwake(s: State, e: Event)
    requires Sound(s) && Awake(s)
    ensures Awake(After(s, e)) <==> !Strands(s, e)
  {
  }

  /**
   In every run of calls on a pipe, interleaved in any way, what came out is a prefix of
   what went in, at most PIPESIZE behind, and no writer sleeps without reason.
   */
  lemma {:induction false} RunSound(events: seq<Event>)
    ensures Sound(AfterAll(events))
    decreases |events|
  {
    if events != [] {
      RunSound(events[..|events| - 1]);
      StepSound(AfterAll(events[..|events| - 1]), events[|events| - 1]);
    }
  }

  /** No writer is killed in the middle of a segment: it sees that it is killed at the first check or not at all. */
  predicate CleanKills(events: seq<Event>) {
    forall k :: 0 <= k < |events| && (events[k].Write? || events[k].Continue?) ==>
      events[k].kills.None? || events[k].kills.value == 0
  }

  lemma Unrolled(events: seq<Event>, k: nat)
    requires k < |events|
    ensures AfterAll(events[..k + 1]) == After(AfterAll(events[..k]), events[k])
  {
    assert events[..k + 1][..k] == events[..k];
  }

  lemma {:induction false} AwakeUpTo(events: seq<Event>, k: nat)
    requires k <= |events|
    requires forall j :: 0 <= j < k ==> !Strands(AfterAll(events[..j]), events[j])
    ensures Awake(AfterAll(events[..k]))
  {
    hide After, Strands, Awake;
    if k == 0 {
      StartAwake();
    } else {
      AwakeUpTo(events, k - 1);
      RunSound(events[..k - 1]);
      StepAwake(AfterAll(events[..k - 1]), events[k - 1]);
      Unrolled(events, k - 1);
    }
  }

  /** Readers sleep with reason throughout a run exactly as long as no event strands one. */
  lemma RunAwake(events: seq<Event>)
    ensures (forall k :: 0 <= k <= |events| ==> Awake(AfterAll(events[..k])))
            <==> forall k :: 0 <= k < |events| ==> !Strands(AfterAll(events[..k]), events[k])
  {
    hide After, AfterAll, Strands, Awake;
    if forall k :: 0 <= k < |events| ==> !Strands(AfterAll(events[..k]), events[k]) {
      forall k | 0 <= k <= |events| ensures Awake(AfterAll(events[..k])) {
        AwakeUpTo(events, k);
      }
    }
    if forall k :: 0 <= k <= |events| ==> Awake(AfterAll(events[..k])) {
      forall k | 0 <= k < |events| ensures !Strands(AfterAll(events[..k]), events[k]) {
        RunSound(events[..k]);
        StepAwake(AfterAll(events[..k]), events[k]);
        Unrolled(events, k);
        assert Awake(AfterAll(events[..k + 1]));
      }
    }
  }

  lemma StartAwake()
    ensures Awake(START)
  {
  }

  /** No reader sleeps without reason in a run whose kills are clean. */
  lemma CleanAwake(events: seq<Event>)
    requires CleanKills(events)
    ensures Awake(AfterAll(events))
  {
    hide Awake;
    forall k | 0 <= k < |events| ensures !Strands(AfterAll(events[..k]), events[k]) {
    }
    RunAwake(events);
    assert events[..|events|] == events;
  }

  /** The exception is real: a writer killed after its first byte leaves a reader asleep on a pipe that is not empty. */
  lemma Stranded()
    ensures var s := AfterAll([Read(1, 1, false, 1), Write(2, [7, 8], Some(1), 2)]);
            s.readers == {1} && s.written == [7] && s.removed == [] && s.readopen && s.writeopen && !Awake(s)
  {
    var a, b := Read(1, 1, false, 1), Write(2, [7, 8], Some(1), 2);
    assert [a, b][..1] == [a] && [a][..0] == [];
    assert AfterAll([a]) == After(START, a) == START.(readers := {1});
    assert AfterAll([a, b]) == After(START.(readers := {1}), b);
  }

  // ------------------------------------------------------------------
  // What the callers get

  /** The bytes that an event puts in the pipe. */
  function Adds(s: State, e: Event): seq<int>
    requires Formed(s)
  {
    if |s.written| <= |After(s, e).written| then After(s, e).written[|s.written|..] else []
  }

  /** A process's call of pipewrite so far: what it was given, and the bytes it has put in the pipe. */
  datatype Call = Call(src: seq<int>, sent: seq<int>)

  /** The last call of pipewrite by pid, read off the events and what entered the stream. */
  function CallOf(events: seq<Event>, pid: nat): Call {
    if events == [] then Call([], [])
    else
      var init, e := events[..|events| - 1], events[|events| - 1];
      var s, c := AfterAll(init), CallOf(init, pid);
      if (e.Write? || e.Continue?) && e.pid == pid && Writes(s, e).Some? then
        if e.Write? then Call(e.src, Adds(s, e)) else Call(c.src, c.sent + Adds(s, e))
      else c
  }

  lemma SegmentAdds(s: State, e: Event)
    requires Formed(s) && Writes(s, e).Some?
    ensures var w := Writes(s, e).value;
            var m := Puts(s, w, e.kills, e.readable);
            Adds(s, e) == w.src[w.i..w.i + m]
  {
  }

  lemma OtherCalls(s: State, e: Event, pid: nat)
    requires Formed(s) && pid in After(s, e).calls
    requires !((e.Write? || e.Continue?) && e.pid == pid && Writes(s, e).Some?)
    ensures pid in s.calls && After(s, e).calls[pid] == s.calls[pid]
  {
  }

  lemma OwnCall(s: State, e: Event)
    requires Formed(s) && Writes(s, e).Some? && e.pid in After(s, e).calls
    ensures var w := Writes(s, e).value;
            var m := Puts(s, w, e.kills, e.readable);
            After(s, e).calls[e.pid] == Pending(w.src, w.i + m)
  {
  }

  /** A call that sleeps has put in exactly the bytes it says, in order. */
  lemma {:induction false} CallSent(events: seq<Event>, pid: nat)
    ensures var s, c := AfterAll(events), CallOf(events, pid);
            pid in s.calls ==>
            s.calls[pid].i <= |c.src| && s.calls[pid].src == c.src && c.sent == c.src[..s.calls[pid].i]
    decreases |events|
  {
    hide After, Adds, Puts;
    if events != [] {
      var init, e := events[..|events| - 1], events[|events| - 1];
      var s := AfterAll(init);
      CallSent(init, pid);
      if pid in AfterAll(events).calls {
        if (e.Write? || e.Continue?) && e.pid == pid && Writes(s, e).Some? {
          OwnCall(s, e);
          SegmentAdds(s, e);
          var w := Writes(s, e).value;
          var m := Puts(s, w, e.kills, e.readable);
          assert w.src[..w.i] + w.src[w.i..w.i + m] == w.src[..w.i + m];
        } else {
          OtherCalls(s, e, pid);
        }
      }
    }
  }

  /**
   What pipewrite returns, in every run: r bytes mean that exactly the first r bytes of what
   it was given are in the stream, put there in order, and r is all of them or the next one
   cannot be read; -1 means that nobody can read the pipe or the writer was killed; and it
   goes to sleep only with the pipe full.
   */
  lemma WriteReturns(events: seq<Event>, e: Event)
    requires Writes(AfterAll(events), e).Some?
    ensures var s, w := AfterAll(events), Writes(AfterAll(events), e).value;
            var c := CallOf(events + [e], e.pid);
            match WriteOut(s, w, e.kills, Puts(s, w, e.kills, e.readable))
            case Returned(r) =>
              if r >= 0 then r <= |c.src| && c.sent == c.src[..r] && (r == |c.src| || e.readable <= r)
              else r == -1 && (!s.readopen || e.kills.Some?)
            case Slept(j) =>
              && j <= |c.src| && c.sent == c.src[..j] && s.readopen
              && |AfterAll(events + [e]).written| == |AfterAll(events + [e]).removed| + PIPESIZE
  {
    hide AfterAll, After, CallOf, Puts;
    var s, w := AfterAll(events), Writes(AfterAll(events), e).value;
    var m := Puts(s, w, e.kills, e.readable);
    SegmentSent(events, e);
    SegmentStops(s, e, w, m);
    assert (events + [e])[..|events|] == events;
    NextState(events, e);
  }

  lemma NextState(events: seq<Event>, e: Event)
    ensures AfterAll(events + [e]) == After(AfterAll(events), e)
  {
    assert (events + [e])[..|events + [e]| - 1] == events;
  }

  lemma SegmentSent(events: seq<Event>, e: Event)
    requires Writes(AfterAll(events), e).Some?
    ensures var s, w := AfterAll(events), Writes(AfterAll(events), e).value;
            var m := Puts(s, w, e.kills, e.readable);
            CallOf(events + [e], e.pid) == Call(w.src, w.src[..w.i + m])
  {
    hide Adds, After, Puts;
    var s, w := AfterAll(events), Writes(AfterAll(events), e).value;
    var all := events + [e];
    assert all[..|all| - 1] == events;
    CallSent(events, e.pid);
    SegmentAdds(s, e);
    var m := Puts(s, w, e.kills, e.readable);
    assert w.src[..w.i] + w.src[w.i..w.i + m] == w.src[..w.i + m];
  }

  /** Why a segment ends, and the pipe when it ends asleep. */
  lemma SegmentStops(s: State, e: Event, w: Pending, m: nat)
    requires Formed(s) && Writes(s, e) == Some(w) && m == Puts(s, w, e.kills, e.readable)
    ensures match WriteOut(s, w, e.kills, m)
            case Returned(r) =>
              if r >= 0 then r == w.i + m && (r == |w.src| || e.readable <= r)
              else r == -1 && (!s.readopen || e.kills.Some?)
            case Slept(j) =>
              j == w.i + m && s.readopen && |After(s, e).written| == |After(s, e).removed| + PIPESIZE
  {
  }

  /**
   What piperead returns: -1 or sleep exactly on an empty pipe that can still be written, by
   whether it was killed; otherwise as many bytes as are asked for, waiting and deliverable,
   so that 0 of n > 0 means the end of the stream or a bad address.
   */
  lemma ReadReturns(s: State, n: nat, killed: bool, room: nat)
    requires Formed(s)
    ensures var out := ReadOut(s, n, killed, room);
            && (out == Returned(-1) <==> |s.written| == |s.removed| && s.writeopen && killed)
            && (out.Slept? <==> |s.written| == |s.removed| && s.writeopen && !killed)
            && (out.Returned? && out.r >= 0 ==>
                  && out.r <= n && out.r <= room && out.r <= |s.written| - |s.removed|
                  && (out.r == n || out.r == room || out.r == |s.written| - |s.removed|))
            && (out == Returned(0) && n > 0 && room > 0 ==> |s.written| == |s.removed| && !s.writeopen)
  {
  }

  /** piperead takes out what it returns, and loses one byte more exactly if it runs into a bad address. */
  lemma ReadTakes(s: State, pid: nat, n: nat, killed: bool, room: nat)
    requires Formed(s)
    ensures var out := ReadOut(s, n, killed, room);
            var lost := if room < n && room < |s.written| - |s.removed| then 1 else 0;
            |ReadAfter(s, pid, n, killed, room).removed|
            == |s.removed| + if out.Slept? || out.r < 0 then 0 else out.r + lost
  {
  }

  /** A killed process does not sleep in the pipe, and the kill does nothing to any other. */
  lemma KillFrees(events: seq<Event>, pid: nat)
    ensures var s, t := AfterAll(events), AfterAll(events + [Kill(pid)]);
            && pid !in t.readers && pid !in t.writers && t.written == s.written && t.removed == s.removed
            && forall q :: q != pid ==> (q in t.readers <==> q in s.readers) && (q in t.writers <==> q in s.writers)
  {
    assert (events + [Kill(pid)])[..|events|] == events;
  }

  // ------------------------------------------------------------------
  // The code

  class Pipe {
    const data: array<int>
    var nread: nat
    var nwrite: nat
    var readopen: bool
    var writeopen: bool
    var writers: set<nat>          // asleep on &nwrite
    var readers: set<nat>          // asleep on &nread
    ghost var written: seq<int>    // every byte ever put in
    ghost var removed: seq<int>    // every byte ever taken out

    ghost predicate Valid()
      reads this, data
    {
      && data.Length == PIPESIZE
      && Ring(data[..], written, |removed|, |written|) && removed <= written
      && nread == Wrap(|removed|) && nwrite == Wrap(|written|)
    }

    ghost function Abs(calls: map<nat, Pending>): State
      reads this
    {
      State(written, removed, readopen, writeopen, writers, readers, calls)
    }

    /** pipealloc. */
    constructor ()
      ensures Valid() && fresh(data) && Abs(map[]) == START
    {
      data := new int[PIPESIZE];
      nread, nwrite, readopen, writeopen := 0, 0, true, true;
      writers, readers, written, removed := {}, {}, [], [];
    }

    /** pipewrite's store of one byte. */
    method Put(c: int)
      requires Valid() && |written| < |removed| + PIPESIZE
      modifies data, `nwrite, `written
      ensures Valid() && written == old(written) + [c]
    {
      hide Ring, Wrap;
      RoomHere();
      RingPut(data[..], written, |removed|, |written|, c);
      Counters(|removed|, |written|);
      assert data[..][|written| % PIPESIZE := c] == data[..][nwrite % PIPESIZE := c];
      data[nwrite % PIPESIZE] := c;
      nwrite := (nwrite + 1) % UINT;
      written := written + [c];
    }

    /** piperead's fetch of one byte. */
    method Get() returns (c: int)
      requires Valid() && |removed| < |written|
      modifies `nread, `removed
      ensures Valid() && removed == old(removed) + [c]
    {
      hide Ring, Wrap;
      RoomHere();
      RingGet(data[..], written, |removed|, |written|);
      Counters(|removed|, |written|);
      c := data[nread % PIPESIZE];
      nread := (nread + 1) % UINT;
      removed := removed + [c];
    }

    lemma RoomHere()
      requires Valid()
      ensures |removed| <= |written| <= |removed| + PIPESIZE
    {
    }

    /**
     A segment of pipewrite of src, of which i bytes were written before.  The process sees
     itself killed at the check after `kills` others, if at all, and can read `readable`
     bytes of src.
     */
    method WriteSegment(pid: nat, src: seq<int>, i: nat, kills: Option<nat>, readable: nat,
        ghost calls: map<nat, Pending>)
      returns (out: Outcome)
      requires Valid() && i <= |src|
      modifies this, data
      ensures Valid() && Room(old(Abs(calls))) >= 0
      ensures var s, w := old(Abs(calls)), Pending(src, i);
              && out == WriteOut(s, w, kills, Puts(s, w, kills, readable))
              && Abs(if out.Slept? then calls[pid := w.(i := out.i)] else calls - {pid}) ==
                 WriteAfter(s, pid, w, kills, readable)
    {
      hide Ring, Wrap;
      RoomHere();
      out := Fill(src, i, kills, readable, calls);
      if out != Returned(-1) {
        readers := {};
      }
      if out.Slept? {
        writers := writers + {pid};
      }
    }

    /** The loop of pipewrite. */
    method Fill(src: seq<int>, i: nat, kills: Option<nat>, readable: nat, ghost calls: map<nat, Pending>)
      returns (out: Outcome)
      requires Valid() && i <= |src|
      modifies data, `nwrite, `written
      ensures Valid() && Room(old(Abs(calls))) >= 0
      ensures var s, w := old(Abs(calls)), Pending(src, i);
              var m := Puts(s, w, kills, readable);
              && out == WriteOut(s, w, kills, m)
              && written == old(written) + src[i..i + m]
    {
      hide Ring, Wrap, Puts;
      RoomHere();
      var n, j, checks := |src|, i, 0;
      while j < n
        invariant i <= j <= n && checks == j - i && (kills.Some? ==> checks <= kills.value) && (checks > 0 ==> readopen)
        invariant checks <= Room(old(Abs(calls))) && checks <= Avail(Pending(src, i), readable)
        invariant Valid() && written == old(written) + src[i..j]
      {
        if !readopen || kills == Some(checks) {
          Stops(old(Abs(calls)), Pending(src, i), kills, readable, checks);
          return Returned(-1);
        }
        RoomHere();
        Counters(|removed|, |written|);
        if nwrite == (nread + PIPESIZE) % UINT {
          Stops(old(Abs(calls)), Pending(src, i), kills, readable, checks);
          return Slept(j);
        }
        if j >= readable {
          break;
        }
        assert src[i..j] + [src[j]] == src[i..j + 1];
        Put(src[j]);
        j, checks := j + 1, checks + 1;
      }
      Stops(old(Abs(calls)), Pending(src, i), kills, readable, checks);
      return Returned(j);
    }

    /**
     A segment of piperead of n bytes, of which the user can receive `room`; a byte that cannot
     be delivered is lost.
     */
    method ReadSegment(pid: nat, n: nat, killed: bool, room: nat, ghost calls: map<nat, Pending>)
      returns (out: Outcome, got: seq<int>)
      requires Valid()
      modifies this
      ensures Valid() && Waiting(old(Abs(calls))) >= 0
      ensures out == ReadOut(old(Abs(calls)), n, killed, room)
      ensures Abs(calls) == ReadAfter(old(Abs(calls)), pid, n, killed, room)
      ensures old(removed) + got <= removed && |got| == if out.Returned? && out.r >= 0 then out.r else 0
    {
      hide Ring, Wrap;
      RoomHere();
      Counters(|removed|, |written|);
      got := [];
      if nread == nwrite && writeopen {
        if killed {
          return Returned(-1), got;
        }
        readers := readers + {pid};
        return Slept(0), got;
      }
      var i;
      i, got := Drain(n, room);
      Taken(written, old(removed), removed);
      writers := {};
      return Returned(i), got;
    }

    /** The loop of piperead. */
    method Drain(n: nat, room: nat) returns (i: nat, got: seq<int>)
      requires Valid()
      modifies `nread, `removed
      ensures Valid() && old(removed) + got <= removed && |got| == i
      ensures old(|removed| <= |written|)
      ensures |removed| - old(|removed|) == Min(Min(n, room + 1), |written| - old(|removed|))
      ensures i == Min(|removed| - old(|removed|), room)
    {
      hide Ring, Wrap;
      RoomHere();
      got, i := [], 0;
      while i < n
        invariant 0 <= i <= n && i <= room && |got| == i && removed == old(removed) + got
        invariant Valid()
      {
        RoomHere();
        Counters(|removed|, |written|);
        if nread == nwrite {
          break;
        }
        var c := Get();
        if i == room {
          break;
        }
        got := got + [c];
        i := i + 1;
      }
      RoomHere();
    }

    static lemma Taken(w: seq<int>, a: seq<int>, b: seq<int>)
      requires a <= b <= w
      ensures b == a + w[|a|..|b|]
    {
    }

    /** pipeclose of one end. */
    method Close(writable: bool, ghost calls: map<nat, Pending>)
      requires Valid()
      modifies `readopen, `writeopen, `readers, `writers
      ensures Valid() && Abs(calls) == CloseAfter(old(Abs(calls)), writable)
    {
      if writable {
        writeopen, readers := false, {};
      } else {
        readopen, writers := false, {};
      }
    }

    /** kill: the process no longer sleeps. */
    method Kill(pid: nat)
      requires Valid()
      modifies `readers, `writers
      ensures Valid() && readers == old(readers) - {pid} && writers == old(writers) - {pid}
    {
      readers, writers := readers - {pid}, writers - {pid};
    }
  }

  /** One event. */
  method Perform(p: Pipe, e: Event, calls: map<nat, Pending>) returns (calls': map<nat, Pending>)
    requires p.Valid() && Formed(p.Abs(calls))
    modifies p, p.data
    ensures p.Valid() && p.Abs(calls') == After(old(p.Abs(calls)), e)
  {
    hide Ring, Wrap, WriteAfter, ReadAfter, CloseAfter, WriteOut, ReadOut;
    calls' := calls;
    match e
    case Write(pid, src, kills, readable) =>
      if pid !in calls && pid !in p.readers {
        calls' := Segment(p, pid, Pending(src, 0), kills, readable, calls);
      }
    case Continue(pid, kills, readable) =>
      if pid in calls && pid !in p.writers {
        calls' := Segment(p, pid, calls[pid], kills, readable, calls);
      }
    case Read(pid, n, killed, room) =>
      if pid !in calls && pid !in p.readers {
        var out, got := p.ReadSegment(pid, n, killed, room, calls);
      }
    case Close(writable) => p.Close(writable, calls);
    case Kill(pid) => p.Kill(pid);
  }

  method Segment(p: Pipe, pid: nat, w: Pending, kills: Option<nat>, readable: nat, calls: map<nat, Pending>)
    returns (calls': map<nat, Pending>)
    requires p.Valid() && w.i <= |w.src|
    modifies p, p.data
    ensures p.Valid() && Room(old(p.Abs(calls))) >= 0
    ensures p.Abs(calls') == WriteAfter(old(p.Abs(calls)), pid, w, kills, readable)
  {
    hide Ring, Wrap, WriteAfter, WriteOut;
    var out := p.WriteSegment(pid, w.src, w.i, kills, readable, calls);
    match out
    case Slept(j) => calls' := calls[pid := w.(i := j)];
    case Returned(_) => calls' := calls - {pid};
  }

  /**
   Any run of calls on a new pipe, interleaved in any way: the pipe ends in the state that
   the run says, so what came out is a prefix of what went in and nobody sleeps without
   reason, readers unless a writer was killed in the middle of a segment.
   */
  method Run(events: seq<Event>) returns (p: Pipe, calls: map<nat, Pending>)
    ensures p.Valid() && p.Abs(calls) == AfterAll(events) && Sound(p.Abs(calls))
    ensures CleanKills(events) ==> Awake(p.Abs(calls))
  {
    hide Ring, Wrap, After, Sound, Awake, Formed, CleanKills;
    p := new Pipe();
    calls := map[];
    assert events[..0] == [];
    for k := 0 to |events|
      invariant p.Valid() && p.Abs(calls) == AfterAll(events[..k]) && fresh(p) && fresh(p.data)
    {
      assert events[..k + 1][..k] == events[..k];
      calls := Perform(p, events[k], calls);
    }
    assert events[..|events|] == events;
    RunSound(events);
    if CleanKills(events) {
      CleanAwake(events);
    }
  }
}
