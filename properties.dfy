/**
 What the state-stack machine of module Screens guarantees: the frame gate,
 one event per executed tick, the per-screen key tables, the quit request,
 the shape of every reachable stack, and the behaviour of the main loop.
 */
module ScreenProperties {
  import opened Screens

  // ---------------------------------------------------------------------------
  // The frame gate

  /**
   Once a frame finished at `timer`, the gate stays shut for the next
   FrameRate - 1 milliseconds and opens from FrameRate milliseconds on, also
   when the 32-bit counter wraps in between.
   */
  lemma FrameGateOpensAfterInterval(timer: Ticks, d: nat)
    requires d < TicksModulus
    ensures FrameHasElapsed((timer + d) % TicksModulus, timer) <==> d >= FrameRate
  {
    var later := (timer + d) % TicksModulus;
    if timer + d < TicksModulus {
      assert later == timer + d;
    } else {
      assert later == timer + d - TicksModulus;
    }
  }

  // ---------------------------------------------------------------------------
  // One tick

  /** A tick that finds the frame interval not yet over changes nothing and polls nothing. */
  lemma SkippedTickChangesNothing(c: Config, r: Reading)
    requires c.stack != [] && !FrameHasElapsed(r.gate, c.timer)
    ensures Step(c, r) == c
  {
  }

  /**
   An executed tick finishes its frame at the finish reading, whatever it did
   to the stack, so the gate is shut right afterwards and the next interval is
   measured from the end of this frame, not from its start.
   */
  lemma ExecutedTickFinishesFrame(c: Config, r: Reading)
    requires c.stack != [] && FrameHasElapsed(r.gate, c.timer)
    ensures Step(c, r).timer == r.finish
    ensures !FrameHasElapsed(r.finish, Step(c, r).timer)
    ensures forall later: Ticks :: r.finish <= later ==>
              (FrameHasElapsed(later, Step(c, r).timer) <==> later - r.finish >= FrameRate)
  {
  }

  /**
   The interval starts at the frame's finish reading, so the time a frame
   spends on input and drawing is added to the gap between frames rather than
   counted within it: when a frame gated at `t` finishes 5 ms later, a reading
   at `t + FrameRate` is still skipped.
   */
  lemma IntervalStartsAtFrameFinish(c: Config, t: Ticks)
    requires c.stack != [] && FrameHasElapsed(t, c.timer)
    requires t + FrameRate < TicksModulus
    ensures var c1 := Step(c, Reading(t, t + 5));
            c1.stack == [] || Step(c1, Reading(t + FrameRate, t + FrameRate)) == c1
  {
  }

  /**
   A tick polls at most one event: the queue loses its first event exactly when
   the tick is executed and the queue is not empty. With no pending event the
   stack stays as it is.
   */
  lemma TickConsumesAtMostOneEvent(c: Config, r: Reading)
    requires c.stack != []
    ensures FrameHasElapsed(r.gate, c.timer) && c.events != [] ==> Step(c, r).events == c.events[1..]
    ensures !(FrameHasElapsed(r.gate, c.timer) && c.events != []) ==> Step(c, r).events == c.events
    ensures c.events == [] ==> Step(c, r).stack == c.stack
  {
  }

  /** A quit request empties the stack, whichever screen runs and however deep the stack is. */
  lemma QuitClearsStack(c: Config, r: Reading)
    requires c.stack != [] && FrameHasElapsed(r.gate, c.timer)
    requires c.events != [] && c.events[0] == Quit
    ensures Step(c, r).stack == []
    ensures Step(c, r).events == c.events[1..]
  {
  }

  // ---------------------------------------------------------------------------
  // The key tables

  /** Menu: Escape or q pops one entry, s pushes Game, every other key changes nothing. */
  lemma MenuKeys(s: seq<Screen>, k: Key)
    requires s != []
    ensures k == Escape || k == Q ==> Respond(Menu, KeyDown(k), s) + [Top(s)] == s
    ensures k == S ==> Respond(Menu, KeyDown(k), s) == s + [Game]
    ensures k != Escape && k != Q && k != S ==> Respond(Menu, KeyDown(k), s) == s
  {
  }

  /** Game: Escape pops one entry, every other key changes nothing. */
  lemma GameKeys(s: seq<Screen>, k: Key)
    requires s != []
    ensures k == Escape ==> Respond(Game, KeyDown(k), s) + [Top(s)] == s
    ensures k != Escape ==> Respond(Game, KeyDown(k), s) == s
  {
  }

  /** Exit: y pops one entry, n pushes Menu, every other key changes nothing. */
  lemma ExitKeys(s: seq<Screen>, k: Key)
    requires s != []
    ensures k == Y ==> Respond(Exit, KeyDown(k), s) + [Top(s)] == s
    ensures k == N ==> Respond(Exit, KeyDown(k), s) == s + [Menu]
    ensures k != Y && k != N ==> Respond(Exit, KeyDown(k), s) == s
  {
  }

  /** Events that are neither a quit request nor a key press change no screen's stack. */
  lemma OtherEventsIgnored(screen: Screen, s: seq<Screen>)
    requires s != []
    ensures Respond(screen, OtherEvent, s) == s
  {
  }

  /**
   Starting a game from the menu and leaving it with Escape, on two executed
   ticks, gives back the stack the menu had.
   */
  lemma StartThenEscapeRestores(c: Config, r1: Reading, r2: Reading, rest: seq<Event>)
    requires c.stack != [] && Top(c.stack) == Menu
    requires c.events == [KeyDown(S), KeyDown(Escape)] + rest
    requires FrameHasElapsed(r1.gate, c.timer) && FrameHasElapsed(r2.gate, r1.finish)
    ensures Step(c, r1).stack == c.stack + [Game]
    ensures Step(Step(c, r1), r2) == Config(c.stack, r2.finish, rest)
  {
    var c1 := Step(c, r1);
    assert c1.stack == c.stack + [Game];
    assert Top(c1.stack) == Game;
    assert c1.events == [KeyDown(Escape)] + rest;
    assert Popped(c1.stack) == c.stack;
  }

  /**
   Declining to quit and then quitting from the menu, on two executed ticks,
   gives back the stack the exit confirmation had.
   */
  lemma DeclineThenQuitRestores(c: Config, r1: Reading, r2: Reading, rest: seq<Event>)
    requires c.stack != [] && Top(c.stack) == Exit
    requires c.events == [KeyDown(N), KeyDown(Q)] + rest
    requires FrameHasElapsed(r1.gate, c.timer) && FrameHasElapsed(r2.gate, r1.finish)
    ensures Step(c, r1).stack == c.stack + [Menu]
    ensures Step(Step(c, r1), r2) == Config(c.stack, r2.finish, rest)
  {
    var c1 := Step(c, r1);
    assert c1.stack == c.stack + [Menu];
    assert Top(c1.stack) == Menu;
    assert c1.events == [KeyDown(Q)] + rest;
    assert Popped(c1.stack) == c.stack;
  }

  // ---------------------------------------------------------------------------
  // The shape of reachable stacks

  /**
   Every stack the program reaches is a prefix of [Exit, Menu, Game]: Exit
   only at the bottom, Menu only right above it, Game only right above Menu.
   */
  predicate Navigable(s: seq<Screen>)
  {
    |s| <= 3 && s == [Exit, Menu, Game][..|s|]
  }

  /** In a reachable stack the running screen determines the whole stack. */
  lemma NavigableTopDeterminesStack(s: seq<Screen>)
    requires Navigable(s) && s != []
    ensures Top(s) == Exit <==> s == [Exit]
    ensures Top(s) == Menu <==> s == [Exit, Menu]
    ensures Top(s) == Game <==> s == [Exit, Menu, Game]
  {
    assert [Exit, Menu, Game][..1] == [Exit];
    assert [Exit, Menu, Game][..2] == [Exit, Menu];
    assert [Exit, Menu, Game][..3] == [Exit, Menu, Game];
  }

  /** One tick keeps the stack reachable. */
  lemma StepKeepsNavigable(c: Config, r: Reading)
    requires c.stack != [] && Navigable(c.stack)
    ensures Navigable(Step(c, r).stack)
  {
    NavigableTopDeterminesStack(c.stack);
    assert [Exit, Menu, Game][..0] == [];
    assert [Exit, Menu, Game][..1] == [Exit];
    assert [Exit, Menu, Game][..2] == [Exit, Menu];
    assert [Exit, Menu, Game][..3] == [Exit, Menu, Game];
  }

  /** The main loop keeps the stack reachable. */
  lemma {:induction false} RunKeepsNavigable(c: Config, readings: seq<Reading>)
    requires Navigable(c.stack)
    ensures Navigable(Run(c, readings).stack)
    decreases |readings|
  {
    if c.stack != [] && readings != [] {
      StepKeepsNavigable(c, readings[0]);
      RunKeepsNavigable(Step(c, readings[0]), readings[1..]);
    }
  }

  /**
   From start-up on, every stack the loop reaches is one of [], [Exit],
   [Exit, Menu], [Exit, Menu, Game]. The second ensures is the depth bound
   spelled out as a corollary: it follows from the first, since a navigable
   stack is a prefix of a three-entry sequence.
   */
  lemma ProgramStaysNavigable(t0: Ticks, events: seq<Event>, readings: seq<Reading>)
    ensures Navigable(Run(Initial(t0, events), readings).stack)
    ensures |Run(Initial(t0, events), readings).stack| <= 3
  {
    assert [Exit, Menu, Game][..2] == [Exit, Menu];
    RunKeepsNavigable(Initial(t0, events), readings);
    assert Navigable(Run(Initial(t0, events), readings).stack);
  }

  // ---------------------------------------------------------------------------
  // The main loop

  /** Once the stack is empty the loop stops: no further reading changes anything. */
  lemma RunStopsOnEmptyStack(c: Config, readings: seq<Reading>)
    requires c.stack == []
    ensures Run(c, readings) == c
  {
  }

  /** Running on some readings and then on more is running on all of them. */
  lemma {:induction false} RunComposes(c: Config, a: seq<Reading>, b: seq<Reading>)
    ensures Run(c, a + b) == Run(Run(c, a), b)
    decreases |a|
  {
    if a == [] {
      assert a + b == b;
    } else if c.stack == [] {
      RunStopsOnEmptyStack(c, a + b);
      RunStopsOnEmptyStack(c, a);
      RunStopsOnEmptyStack(c, b);
    } else {
      assert (a + b)[1..] == a[1..] + b;
      RunComposes(Step(c, a[0]), a[1..], b);
    }
  }

  /**
   While no gate reading is a frame interval past the timer, the loop spins:
   the stack, the timer and the pending events all stay as they are.
   */
  lemma {:induction false} RunIdleWhileFrameNotElapsed(c: Config, readings: seq<Reading>)
    requires forall i :: 0 <= i < |readings| ==> !FrameHasElapsed(readings[i].gate, c.timer)
    ensures Run(c, readings) == c
    decreases |readings|
  {
    if c.stack != [] && readings != [] {
      assert !FrameHasElapsed(readings[0].gate, c.timer);
      assert Step(c, readings[0]) == c;
      RunIdleWhileFrameNotElapsed(c, readings[1..]);
    }
  }

  /**
   The loop takes pending events from the front of the queue, in order, and at
   most one per iteration.
   */
  lemma {:induction false} RunConsumesEventsInOrder(c: Config, readings: seq<Reading>)
    ensures |Run(c, readings).events| <= |c.events|
    ensures Run(c, readings).events == c.events[|c.events| - |Run(c, readings).events|..]
    ensures |c.events| - |Run(c, readings).events| <= |readings|
    decreases |readings|
  {
    if c.stack != [] && readings != [] {
      var c1 := Step(c, readings[0]);
      RunConsumesEventsInOrder(c1, readings[1..]);
      var r := Run(c1, readings[1..]);
      if c1.events != c.events {
        assert c1.events == c.events[1..];
        assert c.events[1..][|c1.events| - |r.events|..] == c.events[|c.events| - |r.events|..];
      }
    }
  }

  /** The readings of a single tick run the top screen once, unless the stack is already empty. */
  lemma RunOne(c: Config, r: Reading)
    ensures Run(c, [r]) == if c.stack == [] then c else Step(c, r)
  {
    if c.stack != [] {
      assert [r][1..] == [];
    }
  }

  /** The four ticks of the scenario below, one at a time. */
  lemma StartEscapeQuitConfirmTicks(t0: Ticks)
    requires t0 + 165 < TicksModulus
    ensures Step(Initial(t0, [KeyDown(S), KeyDown(Escape), KeyDown(Q), KeyDown(Y)]), Reading(t0 + 40, t0 + 45))
            == Config([Exit, Menu, Game], t0 + 45, [KeyDown(Escape), KeyDown(Q), KeyDown(Y)])
    ensures Step(Config([Exit, Menu, Game], t0 + 45, [KeyDown(Escape), KeyDown(Q), KeyDown(Y)]), Reading(t0 + 80, t0 + 85))
            == Config([Exit, Menu], t0 + 85, [KeyDown(Q), KeyDown(Y)])
    ensures Step(Config([Exit, Menu], t0 + 85, [KeyDown(Q), KeyDown(Y)]), Reading(t0 + 120, t0 + 125))
            == Config([Exit], t0 + 125, [KeyDown(Y)])
    ensures Step(Config([Exit], t0 + 125, [KeyDown(Y)]), Reading(t0 + 160, t0 + 165))
            == Config([], t0 + 165, [])
  {
    assert [KeyDown(S), KeyDown(Escape), KeyDown(Q), KeyDown(Y)][1..] == [KeyDown(Escape), KeyDown(Q), KeyDown(Y)];
    assert [KeyDown(Escape), KeyDown(Q), KeyDown(Y)][1..] == [KeyDown(Q), KeyDown(Y)];
    assert [KeyDown(Q), KeyDown(Y)][1..] == [KeyDown(Y)];
  }

  /**
   Four executed ticks that end with an empty stack are the whole run: the
   loop gives each intermediate state and stops after the fourth.
   */
  lemma RunThroughFourTicks(c0: Config, c1: Config, c2: Config, c3: Config, c4: Config,
                            r1: Reading, r2: Reading, r3: Reading, r4: Reading, more: seq<Reading>)
    requires c0.stack != [] && Step(c0, r1) == c1
    requires c1.stack != [] && Step(c1, r2) == c2
    requires c2.stack != [] && Step(c2, r3) == c3
    requires c3.stack != [] && Step(c3, r4) == c4
    requires c4.stack == []
    ensures Run(c0, [r1]) == c1
    ensures Run(c0, [r1, r2]) == c2
    ensures Run(c0, [r1, r2, r3]) == c3
    ensures Run(c0, [r1, r2, r3, r4]) == c4
    ensures Run(c0, [r1, r2, r3, r4] + more) == c4
  {
    RunOne(c0, r1);
    RunOne(c1, r2);
    RunOne(c2, r3);
    RunOne(c3, r4);
    RunComposes(c0, [r1], [r2]);
    assert [r1] + [r2] == [r1, r2];
    RunComposes(c0, [r1, r2], [r3]);
    assert [r1, r2] + [r3] == [r1, r2, r3];
    RunComposes(c0, [r1, r2, r3], [r4]);
    assert [r1, r2, r3] + [r4] == [r1, r2, r3, r4];
    RunComposes(c0, [r1, r2, r3, r4], more);
    RunStopsOnEmptyStack(c4, more);
  }

  /**
   From the start state, s, Escape, q and y on four executed ticks lead through
   [Exit, Menu, Game], [Exit, Menu] and [Exit] to the empty stack, and the
   loop then stops whatever readings follow. Each frame takes 5 ms to finish,
   and each gate reading comes 35 ms after the previous frame finished.
   */
  lemma StartEscapeQuitConfirm(t0: Ticks, more: seq<Reading>)
    requires t0 + 165 < TicksModulus
    ensures var c0 := Initial(t0, [KeyDown(S), KeyDown(Escape), KeyDown(Q), KeyDown(Y)]);
            var r1, r2 := Reading(t0 + 40, t0 + 45), Reading(t0 + 80, t0 + 85);
            var r3, r4 := Reading(t0 + 120, t0 + 125), Reading(t0 + 160, t0 + 165);
            && Run(c0, [r1]).stack == [Exit, Menu, Game]
            && Run(c0, [r1, r2]).stack == [Exit, Menu]
            && Run(c0, [r1, r2, r3]).stack == [Exit]
            && Run(c0, [r1, r2, r3, r4]) == Config([], r4.finish, [])
            && Run(c0, [r1, r2, r3, r4] + more) == Config([], r4.finish, [])
  {
    StartEscapeQuitConfirmTicks(t0);
    RunThroughFourTicks(
      Initial(t0, [KeyDown(S), KeyDown(Escape), KeyDown(Q), KeyDown(Y)]),
      Config([Exit, Menu, Game], t0 + 45, [KeyDown(Escape), KeyDown(Q), KeyDown(Y)]),
      Config([Exit, Menu], t0 + 85, [KeyDown(Q), KeyDown(Y)]),
      Config([Exit], t0 + 125, [KeyDown(Y)]),
      Config([], t0 + 165, []),
      Reading(t0 + 40, t0 + 45), Reading(t0 + 80, t0 + 85),
      Reading(t0 + 120, t0 + 125), Reading(t0 + 160, t0 + 165), more);
  }
}
