/**
 The program's global state and its procedures, updating that state in place.
 The stack primitives and FinishFrame state their effect on the fields
 directly; the input handlers, the screen ticks and the main loop are proved
 to do what the functions of module Screens say.
 */
module Intro {
  import opened Screens

  class Application {
    /** The navigation stack, bottom first. */
    var stack: seq<Screen>
    /** Tick count at which the last frame finished. */
    var timer: Ticks

    /** The current state, with `events` as the pending event queue. */
    function State(events: seq<Event>): Config
      reads this
    {
      Config(stack, timer, events)
    }

    /** Start-up: the timer reads the clock, then Exit and Menu are pushed. */
    constructor Init(now: Ticks)
      ensures stack == [Exit, Menu] && timer == now
    {
      stack := [];
      timer := now;
      new;
      Push(Exit);
      Push(Menu);
    }

    method Push(screen: Screen)
      modifies this
      ensures stack == old(stack) + [screen] && timer == old(timer)
    {
      stack := stack + [screen];
    }

    /** Only the running screen pops, so the stack is never empty here. */
    method Pop()
      requires stack != []
      modifies this
      ensures stack == Popped(old(stack)) && timer == old(timer)
    {
      stack := stack[..|stack| - 1];
    }

    /** Pop until the stack is empty. */
    method ClearStateStack()
      modifies this
      ensures stack == [] && timer == old(timer)
    {
      while stack != []
        invariant timer == old(timer)
        decreases |stack|
      {
        Pop();
      }
    }

    /** The frame is finished: the timer becomes the current tick count. */
    method FinishFrame(now: Ticks)
      modifies this
      ensures timer == now && stack == old(stack)
    {
      timer := now;
    }

    method HandleMenuInput(queue: seq<Event>) returns (rest: seq<Event>)
      requires stack != []
      modifies this
      ensures State(rest) == HandleInput(Menu, old(State(queue)))
    {
      if queue == [] {
        return queue;
      }
      rest := queue[1..];
      match queue[0] {
        case Quit =>
          ClearStateStack();
        case KeyDown(k) =>
          if k == Escape || k == Q {
            Pop();
          } else if k == S {
            Push(Game);
          }
        case OtherEvent =>
      }
    }

    method HandleGameInput(queue: seq<Event>) returns (rest: seq<Event>)
      requires stack != []
      modifies this
      ensures State(rest) == HandleInput(Game, old(State(queue)))
    {
      if queue == [] {
        return queue;
      }
      rest := queue[1..];
      match queue[0] {
        case Quit =>
          ClearStateStack();
        case KeyDown(k) =>
          if k == Escape {
            Pop();
          }
        case OtherEvent =>
      }
    }

    method HandleExitInput(queue: seq<Event>) returns (rest: seq<Event>)
      requires stack != []
      modifies this
      ensures State(rest) == HandleInput(Exit, old(State(queue)))
    {
      if queue == [] {
        return queue;
      }
      rest := queue[1..];
      match queue[0] {
        case Quit =>
          ClearStateStack();
        case KeyDown(k) =>
          if k == Y {
            Pop();
          } else if k == N {
            Push(Menu);
          }
        case OtherEvent =>
      }
    }

    method MenuTick(clock: Reading, queue: seq<Event>) returns (rest: seq<Event>)
      requires stack != []
      modifies this
      ensures State(rest) == ScreenTick(Menu, old(State(queue)), clock)
    {
      if !FrameHasElapsed(clock.gate, timer) {
        return queue;
      }
      rest := HandleMenuInput(queue);
      FinishFrame(clock.finish);
    }

    method GameTick(clock: Reading, queue: seq<Event>) returns (rest: seq<Event>)
      requires stack != []
      modifies this
      ensures State(rest) == ScreenTick(Game, old(State(queue)), clock)
    {
      if !FrameHasElapsed(clock.gate, timer) {
        return queue;
      }
      rest := HandleGameInput(queue);
      FinishFrame(clock.finish);
    }

    method ExitTick(clock: Reading, queue: seq<Event>) returns (rest: seq<Event>)
      requires stack != []
      modifies this
      ensures State(rest) == ScreenTick(Exit, old(State(queue)), clock)
    {
      if !FrameHasElapsed(clock.gate, timer) {
        return queue;
      }
      rest := HandleExitInput(queue);
      FinishFrame(clock.finish);
    }

    /** Run the screen on top of the stack once. */
    method Tick(clock: Reading, queue: seq<Event>) returns (rest: seq<Event>)
      requires stack != []
      modifies this
      ensures State(rest) == Step(old(State(queue)), clock)
    {
      match Top(stack) {
        case Menu => rest := MenuTick(clock, queue);
        case Game => rest := GameTick(clock, queue);
        case Exit => rest := ExitTick(clock, queue);
      }
    }

    /** The main loop: tick the top screen, one tick's readings per iteration, until the stack is empty. */
    method MainLoop(readings: seq<Reading>, queue: seq<Event>) returns (rest: seq<Event>)
      modifies this
      ensures State(rest) == Run(old(State(queue)), readings)
    {
      rest := queue;
      var i := 0;
      while stack != [] && i < |readings|
        invariant 0 <= i <= |readings|
        invariant Run(State(rest), readings[i..]) == Run(old(State(queue)), readings)
        decreases |readings| - i
      {
        assert readings[i..] == [readings[i]] + readings[i + 1..];
        rest := Tick(readings[i], rest);
        i := i + 1;
      }
    }
  }

  /** The whole program: start-up at `start`, then the main loop; the result is its final state. */
  method RunProgram(start: Ticks, readings: seq<Reading>, queue: seq<Event>) returns (final: Config)
    ensures final == Run(Initial(start, queue), readings)
  {
    var app := new Application.Init(start);
    var rest := app.MainLoop(readings, queue);
    final := app.State(rest);
  }
}
