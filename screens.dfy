/**
 The values of the intro program's state-stack machine and the meaning of one
 tick and of the main loop, as functions.

 The navigation stack is a `seq<Screen>` written bottom first, so its top (the
 screen whose tick runs) is the last element. The event source is a queue of
 pending events handed in and handed back; the clock is a 32-bit millisecond
 counter, read by the frame gate at the start of a tick and read again when
 an executed tick finishes its frame.
 */
module Screens {

  /** What a stack entry runs: the function pointer of a stack entry. */
  datatype Screen = Menu | Game | Exit

  /** The key codes the handlers tell apart; every other key is OtherKey. */
  datatype Key = Escape | Q | S | Y | N | OtherKey

  /** One polled event: a quit request, a key press, or an event of any other type. */
  datatype Event = Quit | KeyDown(key: Key) | OtherEvent

  const FramesPerSecond: int := 30

  /** Minimum milliseconds between two executed frames; integer division, so 33. */
  const FrameRate: int := 1000 / FramesPerSecond

  /** The millisecond counter is an unsigned 32-bit value. */
  const TicksModulus: int := 0x1_0000_0000

  type Ticks = t: int | 0 <= t < TicksModulus

  /** The unsigned 32-bit difference `now - timer`: it wraps when the counter has. */
  function Elapsed(now: Ticks, timer: Ticks): (d: nat)
    ensures d < TicksModulus
    ensures timer <= now ==> d == now - timer
    ensures now < timer ==> d == TicksModulus - timer + now
  {
    (now - timer) % TicksModulus
  }

  /**
   True when at least one frame interval has passed since the last finished
   frame: without a counter wrap, when the readings are 33 ms or more apart.
   */
  predicate FrameHasElapsed(now: Ticks, timer: Ticks): (open: bool)
    ensures timer <= now ==> (open <==> now - timer >= 33)
  {
    Elapsed(now, timer) >= FrameRate
  }

  /** The running screen: the top of the stack. */
  function Top(stack: seq<Screen>): Screen
    requires stack != []
  {
    stack[|stack| - 1]
  }

  /** The stack with its top entry removed. */
  function Popped(stack: seq<Screen>): (r: seq<Screen>)
    requires stack != []
    ensures |r| == |stack| - 1
    ensures r + [Top(stack)] == stack
  {
    stack[..|stack| - 1]
  }

  /**
   The stack after the input handler of `screen` has processed `ev`: a quit
   request clears the stack, a key press pushes, pops or does nothing as the
   screen's table says, and any other event does nothing. Every response is
   one stack operation: a clear, a pop, nothing, or a push of Game (only from
   Menu) or of Menu (only from Exit).
   */
  function Respond(screen: Screen, ev: Event, stack: seq<Screen>): (r: seq<Screen>)
    requires stack != []
    ensures ev == Quit ==> r == []
    ensures r == [] || r == Popped(stack) || r == stack || (|r| == |stack| + 1 && r[..|stack|] == stack)
    ensures |r| == |stack| + 1 ==>
              (screen == Menu && r[|stack|] == Game) || (screen == Exit && r[|stack|] == Menu)
  {
    match ev
    case Quit => []
    case OtherEvent => stack
    case KeyDown(k) =>
      match screen
      case Menu =>
        if k == Escape || k == Q then Popped(stack)
        else if k == S then stack + [Game]
        else stack
      case Game =>
        if k == Escape then Popped(stack) else stack
      case Exit =>
        if k == Y then Popped(stack)
        else if k == N then stack + [Menu]
        else stack
  }

  /** Everything one tick reads and writes: the stack, the frame timer and the pending events. */
  datatype Config = Config(stack: seq<Screen>, timer: Ticks, events: seq<Event>)

  /** The start state: Exit below Menu, the timer at the start time. */
  function Initial(now: Ticks, events: seq<Event>): (c: Config)
    ensures c.stack != [] && Top(c.stack) == Menu && c.stack[0] == Exit && |c.stack| == 2
    ensures c.timer == now && c.events == events
  {
    Config([Exit, Menu], now, events)
  }

  /**
   The two clock readings of one tick: `gate` is the one the frame gate
   compares with the timer, `finish` the later one the finished frame stores.
   A skipped tick takes only the first.
   */
  datatype Reading = Reading(gate: Ticks, finish: Ticks)

  /** A screen's input handler: poll at most one event and respond to it. */
  function HandleInput(screen: Screen, c: Config): (d: Config)
    requires c.stack != []
    ensures c.events == [] ==> d == c
    ensures c.events != [] ==> d.events == c.events[1..] && d.timer == c.timer
  {
    if c.events == [] then c
    else c.(stack := Respond(screen, c.events[0], c.stack), events := c.events[1..])
  }

  /**
   One tick of `screen`: nothing at all unless a frame interval has passed by
   the gate reading; otherwise handle input and finish the frame at the finish
   reading. The next interval is measured from that reading, so the time spent
   handling and drawing is added to the gap between frames rather than counted
   within it.
   */
  function ScreenTick(screen: Screen, c: Config, r: Reading): (d: Config)
    requires c.stack != []
    ensures d.events == c.events || (c.events != [] && d.events == c.events[1..])
    ensures d.timer == c.timer || d.timer == r.finish
    ensures |d.stack| <= |c.stack| + 1
  {
    if !FrameHasElapsed(r.gate, c.timer) then c
    else HandleInput(screen, c).(timer := r.finish)
  }

  /**
   One iteration of the main loop: the top screen ticks, and only its table
   applies, so Game is pushed only over Menu and Menu only over Exit.
   */
  function Step(c: Config, r: Reading): (d: Config)
    requires c.stack != []
    ensures |d.stack| == |c.stack| + 1 ==>
              (Top(c.stack) == Menu && Top(d.stack) == Game) || (Top(c.stack) == Exit && Top(d.stack) == Menu)
  {
    ScreenTick(Top(c.stack), c, r)
  }

  /**
   The main loop, fed the clock readings of one tick per iteration: it runs
   the top screen until the stack is empty (or the readings run out).
   */
  function Run(c: Config, readings: seq<Reading>): (d: Config)
    ensures |d.stack| <= |c.stack| + |readings|
    ensures |d.events| <= |c.events|
    decreases |readings|
  {
    if c.stack == [] || readings == [] then c
    else Run(Step(c, readings[0]), readings[1..])
  }
}
