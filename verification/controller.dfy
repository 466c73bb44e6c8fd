/** The body of the `while True` loop of `multi_model_detection` (app.py)
    as a pure step function. The capture handle, the key poll and the
    reopen attempts are foreign calls; their outcomes arrive as an `Event`,
    and what the loop does with the capture and the window comes back as a
    sequence of `Effect`s in the order the loop performs them. */
module Controller {
  import opened Sources

  /** The keys the loop reacts to; every other code is `NoAction`. */
  datatype Key = Quit | PauseToggle | Reconnect | NoAction

  /** Character codes of the three lower-case control keys. */
  const KeyQ: int := 'q' as int
  const KeyP: int := 'p' as int
  const KeyR: int := 'r' as int

  /** Decodes `waitKey(1) & 0xFF`. On Python's unbounded integers masking
      with 0xFF is the non-negative remainder modulo 256, which is what
      Dafny's `%` computes for a positive divisor. */
  function DecodeKey(code: int): Key {
    var c := code % 256;
    if c == KeyQ then Quit
    else if c == KeyP then PauseToggle
    else if c == KeyR then Reconnect
    else NoAction
  }

  /** Loop state: the source kind, the pause flag, the processed-frame
      counter, whether the capture handle is open, and whether the loop has
      ended. */
  datatype State = State(kind: SourceKind, paused: bool, frameCount: nat, open: bool, done: bool)

  /** What the outside world answers during one tick: whether the device
      has a frame ready, whether a reopen (automatic or manual, at most one
      happens per tick) succeeds, and the raw code returned by the key poll. */
  datatype Event = Event(frameReady: bool, reopenOk: bool, keyCode: int)

  /** Observable actions of one tick, in order. `Show(n)` is a frame passed
      to the detector and displayed as the n-th processed frame; `Exit`
      leaves the loop, releasing the capture and closing the windows. */
  datatype Effect =
    | Read
    | Rewind
    | Release
    | Reopen(ok: bool)
    | Show(frame: nat)
    | PollKey
    | Toggle
    | Exit

  datatype Tick = Tick(next: State, effects: seq<Effect>)

  /** The state the loop starts in, right after a successful first open. */
  function Initial(kind: SourceKind): (s: State)
    ensures s.kind == kind && s.open
    ensures Valid(s) && !s.done && !s.paused && s.frameCount == 0
  {
    State(kind, false, 0, true, false)
  }

  /** Reachable states: once the loop has ended the handle is released, and
      while it runs only a stream's handle can be closed (by a failed
      reconnect). */
  predicate Valid(s: State) {
    && (s.done ==> !s.open)
    && (!s.done && s.kind != Stream ==> s.open)
  }

  /** A read on this tick yields a frame: the loop is running, the handle is
      open and the device has a frame. A read on a closed handle fails. */
  predicate Delivers(s: State, e: Event) {
    !s.paused && s.open && e.frameReady
  }

  /** A tick polls the keyboard unless its read failed: every failed-read
      branch either `continue`s or `break`s before `waitKey`. */
  predicate PollsKeys(s: State, e: Event) {
    s.paused || Delivers(s, e)
  }

  /** The failed-read branch, dispatched on the source kind. */
  function ReadFailed(s: State, e: Event): (t: Tick)
    ensures t.next.kind == s.kind && t.next.frameCount == s.frameCount && t.next.paused == s.paused
    ensures t.next.done <==> s.done || s.kind == Camera
    ensures Exit in t.effects <==> s.kind == Camera
    ensures Toggle !in t.effects
    ensures t.effects == [Read, Rewind] || t.effects == [Read, Release, Reopen(e.reopenOk)] || t.effects == [Read, Exit]
    ensures t.next.open != s.open ==> t.next.done || Reopen(e.reopenOk) in t.effects
    ensures !t.next.done && Reopen(e.reopenOk) in t.effects ==> t.next.open == e.reopenOk
    ensures !s.done && Valid(s) ==> Valid(t.next)
  {
    match s.kind
    case File => Tick(s, [Read, Rewind])
    case Stream => Tick(s.(open := e.reopenOk), [Read, Release, Reopen(e.reopenOk)])
    case Camera => Tick(s.(open := false, done := true), [Read, Exit])
  }

  /** The `if`/`elif` chain on the polled key, after the `before` effects. */
  function HandleKey(s: State, e: Event, before: seq<Effect>): (t: Tick)
    requires forall x :: x in before ==> x == Read || x.Show?
    ensures |before| < |t.effects| && t.effects[..|before|] == before && t.effects[|before|] == PollKey
    ensures Read in t.effects <==> Read in before
    ensures Displays(t.effects) <==> Displays(before)
    ensures t.next.kind == s.kind && t.next.frameCount == s.frameCount
    ensures t.next.paused != s.paused <==> DecodeKey(e.keyCode) == PauseToggle
    ensures t.next.done <==> s.done || DecodeKey(e.keyCode) == Quit
    ensures Exit in t.effects <==> DecodeKey(e.keyCode) == Quit
    ensures Toggle in t.effects <==> DecodeKey(e.keyCode) == PauseToggle
    ensures DecodeKey(e.keyCode) == Reconnect && s.kind == Stream ==>
              && t.next.open == e.reopenOk
              && |t.effects| >= 2
              && t.effects[|t.effects| - 2..] == [Release, Reopen(e.reopenOk)]
    ensures t.next.open != s.open ==> t.next.done || Reopen(e.reopenOk) in t.effects
    ensures !t.next.done && Reopen(e.reopenOk) in t.effects ==> t.next.open == e.reopenOk
    ensures !s.done && Valid(s) ==> Valid(t.next)
  {
    var polled := before + [PollKey];
    match DecodeKey(e.keyCode)
    case Quit => Tick(s.(open := false, done := true), polled + [Exit])
    case PauseToggle => Tick(s.(paused := !s.paused), polled + [Toggle])
    case Reconnect =>
      if s.kind == Stream then Tick(s.(open := e.reopenOk), polled + [Release, Reopen(e.reopenOk)])
      else Tick(s, polled)
    case NoAction => Tick(s, polled)
  }

  /** One iteration of the loop. */
  function Step(s: State, e: Event): (t: Tick)
    requires !s.done
    ensures t.next.kind == s.kind
    ensures t.next.frameCount == s.frameCount + (if Delivers(s, e) then 1 else 0)
    ensures Read in t.effects <==> !s.paused
    ensures Displays(t.effects) <==> Delivers(s, e)
    ensures PollKey in t.effects <==> PollsKeys(s, e)
    ensures t.next.paused != s.paused <==> PollsKeys(s, e) && DecodeKey(e.keyCode) == PauseToggle
    ensures t.next.done <==>
              (PollsKeys(s, e) && DecodeKey(e.keyCode) == Quit)
              || (s.kind == Camera && !s.paused && !Delivers(s, e))
    ensures PollsKeys(s, e) && DecodeKey(e.keyCode) == Reconnect && s.kind == Stream ==>
              && t.next.open == e.reopenOk
              && |t.effects| >= 2
              && t.effects[|t.effects| - 2..] == [Release, Reopen(e.reopenOk)]
    ensures !t.next.done && Reopen(e.reopenOk) in t.effects ==> t.next.open == e.reopenOk
    ensures t.next.open != s.open ==> t.next.done || Reopen(e.reopenOk) in t.effects
    ensures Exit in t.effects <==> t.next.done
    ensures Toggle in t.effects <==> t.next.paused != s.paused
    ensures Valid(s) ==> Valid(t.next)
  {
    if s.paused then HandleKey(s, e, [])
    else if !(s.open && e.frameReady) then ReadFailed(s, e)
    else
      var n := s.frameCount + 1;
      var t := HandleKey(s.(frameCount := n), e, [Read, Show(n)]);
      assert t.effects[1] == Show(n);
      t
  }

  /** Number of effects that reopen the capture. */
  function Reopens(effects: seq<Effect>): nat {
    if |effects| == 0 then 0
    else (if effects[0].Reopen? then 1 else 0) + Reopens(effects[1..])
  }

  /** Whether a tick displayed a processed frame. */
  predicate Displays(effects: seq<Effect>) {
    exists x :: x in effects && x.Show?
  }

  /** Number of ticks that displayed a processed frame. */
  function Shown(ticks: seq<seq<Effect>>): nat {
    if |ticks| == 0 then 0
    else (if Displays(ticks[0]) then 1 else 0) + Shown(ticks[1..])
  }

  /** The effects of each tick taken, and the state the loop is left in. */
  datatype Trace = Trace(final: State, ticks: seq<seq<Effect>>)

  /** Runs the loop over a finite sequence of events; it stops early once a
      tick ends the loop. */
  function Run(s: State, es: seq<Event>): (t: Trace)
    ensures |t.ticks| <= |es|
    ensures t.final.kind == s.kind
    ensures s.frameCount <= t.final.frameCount <= s.frameCount + |t.ticks|
    ensures !t.final.done ==> |t.ticks| == |es|
    ensures s.done ==> t == Trace(s, [])
    ensures Valid(s) ==> Valid(t.final)
    decreases |es|
  {
    if s.done || |es| == 0 then Trace(s, [])
    else
      var tick := Step(s, es[0]);
      var rest := Run(tick.next, es[1..]);
      Trace(rest.final, [tick.effects] + rest.ticks)
  }

  // ---------------------------------------------------------------------
  // Properties of one tick

  /** A failed read is dispatched on the source kind: a file rewinds and
      carries on unchanged, a stream releases and reopens and carries on
      whatever the reopen gives, a camera ends the loop. None of them polls
      the keyboard on that tick. */
  lemma FailedReadDispatch(s: State, e: Event)
    requires !s.done && !s.paused && !Delivers(s, e)
    ensures s.kind == File ==> Step(s, e) == Tick(s, [Read, Rewind])
    ensures s.kind == Stream ==> Step(s, e) == Tick(s.(open := e.reopenOk), [Read, Release, Reopen(e.reopenOk)])
    ensures s.kind == Camera ==> Step(s, e).next.done && Step(s, e).effects == [Read, Exit]
    ensures PollKey !in Step(s, e).effects
  {
  }

  /** A paused tick reads nothing and leaves the counter alone; only the key
      is handled. */
  lemma PausedTickSkipsRead(s: State, e: Event)
    requires !s.done && s.paused
    ensures Read !in Step(s, e).effects
    ensures Step(s, e).next.frameCount == s.frameCount
    ensures Step(s, e).effects[0] == PollKey
  {
  }

  /** The effects that may follow the key poll: nothing, an exit, a toggle,
      or a stream's release and reopen on `r`. */
  predicate IsKeyAction(kind: SourceKind, e: Event, after: seq<Effect>) {
    && (after == [] || after == [Exit] || after == [Toggle] || after == [Release, Reopen(e.reopenOk)])
    && (after == [Release, Reopen(e.reopenOk)] ==> kind == Stream && DecodeKey(e.keyCode) == Reconnect)
  }

  /** The key branch is an `if`/`elif` chain: after the poll at most one
      action follows, and the reconnect action only for a stream. */
  lemma AtMostOneKeyAction(s: State, e: Event)
    requires !s.done && PollsKeys(s, e)
    ensures var before := if s.paused then [] else [Read, Show(s.frameCount + 1)];
            exists after :: Step(s, e).effects == before + [PollKey] + after && IsKeyAction(s.kind, e, after)
  {
    if s.paused {
      var after := KeyActionEffects(s, e, []);
      assert Step(s, e).effects == [] + [PollKey] + after;
    } else {
      var n := s.frameCount + 1;
      var after := KeyActionEffects(s.(frameCount := n), e, [Read, Show(n)]);
      assert Step(s, e).effects == [Read, Show(n)] + [PollKey] + after;
    }
  }

  lemma KeyActionEffects(s: State, e: Event, before: seq<Effect>) returns (after: seq<Effect>)
    requires forall x :: x in before ==> x == Read || x.Show?
    ensures HandleKey(s, e, before).effects == before + [PollKey] + after
    ensures IsKeyAction(s.kind, e, after)
  {
    after := match DecodeKey(e.keyCode)
      case Quit => [Exit]
      case PauseToggle => [Toggle]
      case Reconnect => if s.kind == Stream then [Release, Reopen(e.reopenOk)] else []
      case NoAction => [];
  }

  /** Quitting works from either pause state whenever the key is polled. */
  lemma QuitEndsLoop(s: State, e: Event)
    requires !s.done && PollsKeys(s, e) && DecodeKey(e.keyCode) == Quit
    ensures Step(s, e).next.done && !Step(s, e).next.open
    ensures Step(s, e).effects[|Step(s, e).effects| - 1] == Exit
  {
  }

  /** Two polled pause toggles restore the pause flag. */
  lemma PauseToggleTwice(s: State, e1: Event, e2: Event)
    requires !s.done
    requires PollsKeys(s, e1) && DecodeKey(e1.keyCode) == PauseToggle
    requires PollsKeys(Step(s, e1).next, e2) && DecodeKey(e2.keyCode) == PauseToggle
    ensures !Step(s, e1).next.done
    ensures Step(Step(s, e1).next, e2).next.paused == s.paused
  {
  }

  /** Every reopen in `effects` comes right after a release. */
  predicate ReopenAfterRelease(effects: seq<Effect>) {
    forall i :: 0 <= i < |effects| && effects[i].Reopen? ==> 0 < i && effects[i - 1] == Release
  }

  /** A reconnect is always a release immediately followed by a single
      reopen. */
  lemma ReleaseBeforeReopen(s: State, e: Event)
    requires !s.done
    ensures ReopenAfterRelease(Step(s, e).effects)
    ensures Reopens(Step(s, e).effects) <= 1
  {
    if s.paused || Delivers(s, e) {
      var before, after := SplitAtPoll(s, e);
      PolledEffects(before, after, e.reopenOk);
    } else {
      FailedReadDispatch(s, e);
      FailedReadEffects(Step(s, e).effects, e.reopenOk);
    }
  }

  lemma PolledEffects(before: seq<Effect>, after: seq<Effect>, ok: bool)
    requires Reopens(before) == 0 && forall x :: x in before ==> !x.Reopen?
    requires after == [] || after == [Exit] || after == [Toggle] || after == [Release, Reopen(ok)]
    ensures ReopenAfterRelease(before + [PollKey] + after)
    ensures Reopens(before + [PollKey] + after) <= 1
  {
    ReopensAppend(before + [PollKey], after);
    ReopensAppend(before, [PollKey]);
    assert Reopens([PollKey]) == 0 by { assert [PollKey][1..] == []; }
    if after == [Release, Reopen(ok)] {
      assert Reopens(after) == 1 by {
        assert after[1..] == [Reopen(ok)];
        assert after[1..][1..] == [];
      }
    } else if after != [] {
      assert Reopens(after) == 0 by { assert after[1..] == []; }
    }
  }

  lemma FailedReadEffects(effects: seq<Effect>, ok: bool)
    requires effects == [Read, Rewind] || effects == [Read, Release, Reopen(ok)] || effects == [Read, Exit]
    ensures ReopenAfterRelease(effects)
    ensures Reopens(effects) <= 1
  {
    var rest := effects[1..];
    if effects == [Read, Release, Reopen(ok)] {
      assert rest == [Release, Reopen(ok)] && rest[1..] == [Reopen(ok)];
      assert Reopens(rest[1..]) == 1 by { assert rest[1..][1..] == []; }
    } else {
      assert |rest| == 1 && !rest[0].Reopen?;
      assert Reopens(rest) == 0 by { assert rest[1..] == []; }
    }
  }

  /** The effects of a tick that polls keys, cut at the poll: before it at
      most a read and a display, after it one of the key actions. */
  lemma SplitAtPoll(s: State, e: Event) returns (before: seq<Effect>, after: seq<Effect>)
    requires !s.done && PollsKeys(s, e)
    ensures Step(s, e).effects == before + [PollKey] + after
    ensures before == [] || before == [Read, Show(s.frameCount + 1)]
    ensures Reopens(before) == 0 && forall x :: x in before ==> !x.Reopen?
    ensures after == [] || after == [Exit] || after == [Toggle] || after == [Release, Reopen(e.reopenOk)]
    ensures after == [Release, Reopen(e.reopenOk)] ==> s.kind == Stream && DecodeKey(e.keyCode) == Reconnect
  {
    AtMostOneKeyAction(s, e);
    before := if s.paused then [] else [Read, Show(s.frameCount + 1)];
    after :| Step(s, e).effects == before + [PollKey] + after && IsKeyAction(s.kind, e, after);
    if before != [] {
      assert before[1..] == [Show(s.frameCount + 1)];
      assert before[1..][1..] == [];
      assert Reopens(before[1..]) == 0;
    }
  }

  /** A tick that neither ends the loop nor reopens leaves the handle as it
      was. */
  lemma HandleKeptWithoutReopen(s: State, e: Event)
    requires !s.done
    requires !Step(s, e).next.done && Reopens(Step(s, e).effects) == 0
    ensures Step(s, e).next.open == s.open
  {
    if Reopen(e.reopenOk) in Step(s, e).effects {
      NoReopenCounted(Step(s, e).effects, Reopen(e.reopenOk));
    }
  }

  lemma {:induction false} NoReopenCounted(effects: seq<Effect>, x: Effect)
    requires x.Reopen? && x in effects
    ensures Reopens(effects) > 0
    decreases |effects|
  {
    if effects[0] != x {
      NoReopenCounted(effects[1..], x);
    }
  }

  /** A manual reconnect on a stream releases and reopens the handle and
      leaves it open exactly when the reopen succeeded; after a success the
      next unpaused tick with a frame ready displays it, after a failure the
      next unpaused tick's read fails and falls back to automatic
      reconnection. */
  lemma ManualReconnect(s: State, e1: Event, e2: Event)
    requires !s.done && s.kind == Stream && PollsKeys(s, e1) && DecodeKey(e1.keyCode) == Reconnect
    ensures var s1 := Step(s, e1).next;
            && !s1.done && s1.paused == s.paused && s1.open == e1.reopenOk
            && (!s.paused && e1.reopenOk && e2.frameReady ==>
                  Displays(Step(s1, e2).effects) && Step(s1, e2).next.frameCount == s1.frameCount + 1)
            && (!s.paused && !e1.reopenOk ==>
                  Step(s1, e2).effects == [Read, Release, Reopen(e2.reopenOk)])
  {
    var s1 := Step(s, e1).next;
    if !s.paused && !e1.reopenOk {
      ClosedStreamRetries(s1, e2);
    }
  }

  lemma {:induction false} ReopensAppend(a: seq<Effect>, b: seq<Effect>)
    ensures Reopens(a + b) == Reopens(a) + Reopens(b)
    decreases |a|
  {
    if |a| == 0 {
      assert a + b == b;
    } else {
      assert (a + b)[1..] == a[1..] + b;
      ReopensAppend(a[1..], b);
    }
  }

  /** Only a stream is ever released or reopened; a file or camera handle
      stays open until the loop ends. */
  lemma OnlyStreamsReconnect(s: State, e: Event)
    requires !s.done && s.kind != Stream
    ensures Release !in Step(s, e).effects
    ensures Reopens(Step(s, e).effects) == 0
  {
    if s.paused || Delivers(s, e) {
      var before, after := SplitAtPoll(s, e);
      assert after != [Release, Reopen(e.reopenOk)];
      NoReconnectEffects(before + [PollKey], after);
    } else {
      var failed := ReadFailed(s, e);
      assert Step(s, e) == failed;
      var rest := if s.kind == File then [Rewind] else [Exit];
      assert failed.effects == [Read] + rest;
      NoReconnectEffects([Read], rest);
    }
  }

  lemma NoReconnectEffects(before: seq<Effect>, after: seq<Effect>)
    requires forall x :: x in before ==> !x.Reopen? && x != Release
    requires after == [] || after == [Exit] || after == [Toggle] || after == [Rewind]
    ensures Release !in before + after
    ensures Reopens(before + after) == 0
  {
    ReopensAppend(before, after);
    NoReopenNotCounted(before);
    NoReopenNotCounted(after);
  }

  lemma {:induction false} NoReopenNotCounted(effects: seq<Effect>)
    requires forall x :: x in effects ==> !x.Reopen?
    ensures Reopens(effects) == 0
    decreases |effects|
  {
    if |effects| > 0 {
      assert effects[0] in effects;
      NoReopenNotCounted(effects[1..]);
    }
  }

  /** A stream whose handle is closed fails its next read and goes straight
      back to automatic reconnection, whatever the device or the keyboard
      would have answered. */
  lemma ClosedStreamRetries(s: State, e: Event)
    requires !s.done && s.kind == Stream && !s.open && !s.paused
    ensures Step(s, e) == Tick(s.(open := e.reopenOk), [Read, Release, Reopen(e.reopenOk)])
  {
  }

  /** `waitKey` answers -1 when no key was pressed; that is no action. Only
      the lower-case letters act, and bits above the low byte are ignored. */
  lemma KeyDecoding(code: int, k: int)
    ensures DecodeKey('q' as int) == Quit && DecodeKey('p' as int) == PauseToggle && DecodeKey('r' as int) == Reconnect
    ensures DecodeKey(-1) == NoAction
    ensures DecodeKey('Q' as int) == NoAction && DecodeKey('P' as int) == NoAction && DecodeKey('R' as int) == NoAction
    ensures DecodeKey(code) == Quit <==> code % 256 == 'q' as int
    ensures DecodeKey(code) == PauseToggle <==> code % 256 == 'p' as int
    ensures DecodeKey(code) == Reconnect <==> code % 256 == 'r' as int
    ensures DecodeKey(code + 256 * k) == DecodeKey(code)
  {
    assert (code + 256 * k) % 256 == code % 256;
  }

  // ---------------------------------------------------------------------
  // Properties of runs

  /** The counter ends exactly where it started plus the number of ticks
      that displayed a frame; so it never decreases, and only a tick whose
      read succeeded moves it. */
  lemma {:induction false} FrameCountCountsDisplays(s: State, es: seq<Event>)
    ensures Run(s, es).final.frameCount == s.frameCount + Shown(Run(s, es).ticks)
    decreases |es|
  {
    if s.done || |es| == 0 {
    } else {
      var tick := Step(s, es[0]);
      FrameCountCountsDisplays(tick.next, es[1..]);
      var rest := Run(tick.next, es[1..]);
      assert ([tick.effects] + rest.ticks)[1..] == rest.ticks;
    }
  }

  /** While a stream stays unreachable the loop retries forever: every tick
      releases and reopens, no frame is counted, the keyboard is never
      polled, and so not even a quit key ends the loop. */
  lemma {:induction false} StreamDownRetriesForever(s: State, es: seq<Event>)
    requires s.kind == Stream && !s.open && !s.paused && !s.done
    requires forall i :: 0 <= i < |es| ==> !es[i].reopenOk
    ensures Run(s, es).final == s
    ensures |Run(s, es).ticks| == |es|
    ensures forall i :: 0 <= i < |es| ==> Run(s, es).ticks[i] == [Read, Release, Reopen(false)]
    decreases |es|
  {
    if |es| > 0 {
      ClosedStreamRetries(s, es[0]);
      StreamDownRetriesForever(s, es[1..]);
    }
  }

  /** A file or stream loop only ends on a polled quit key: the last tick
      taken polled the keyboard and read `q`. */
  lemma {:induction false} OnlyQuitEndsNonCameraLoop(s: State, es: seq<Event>)
    requires !s.done && s.kind != Camera && Run(s, es).final.done
    ensures var n := |Run(s, es).ticks|;
            && 0 < n
            && PollKey in Run(s, es).ticks[n - 1]
            && DecodeKey(es[n - 1].keyCode) == Quit
    decreases |es|
  {
    assert |es| > 0;
    var tick := Step(s, es[0]);
    var rest := Run(tick.next, es[1..]);
    var whole := Run(s, es);
    assert whole.ticks == [tick.effects] + rest.ticks;
    if !tick.next.done {
      OnlyQuitEndsNonCameraLoop(tick.next, es[1..]);
      var m := |rest.ticks|;
      assert whole.ticks[m] == rest.ticks[m - 1];
      assert es[m] == es[1..][m - 1];
    } else {
      assert rest.ticks == [];
      assert whole.ticks[0] == tick.effects;
    }
  }

  /** While no pause key arrives, a paused loop reads nothing and counts
      nothing. */
  lemma {:induction false} PausedLoopStaysFrozen(s: State, es: seq<Event>)
    requires s.paused
    requires forall i :: 0 <= i < |es| ==> DecodeKey(es[i].keyCode) != PauseToggle
    ensures Run(s, es).final.frameCount == s.frameCount
    ensures Run(s, es).final.paused
    ensures forall i :: 0 <= i < |Run(s, es).ticks| ==> Read !in Run(s, es).ticks[i]
    decreases |es|
  {
    if !s.done && |es| > 0 {
      var tick := Step(s, es[0]);
      PausedLoopStaysFrozen(tick.next, es[1..]);
    }
  }
}
