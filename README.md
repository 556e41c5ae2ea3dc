# Intro: a state-stack screen machine with a frame-rate gate

This project models the core of the SDL "intro" program (`c++/intro/Intro.cpp`). The program keeps a
global stack of screens (`g_StateStack`) and a frame timer (`g_Timer`). `Init` seeds the stack with
Exit below Menu. `main` then runs the screen on top of the stack again and again until the stack is
empty. Each screen tick (`Menu`, `Game`, `Exit`) does the following:

- It does nothing at all unless `FRAME_RATE` milliseconds (`1000/30`, so 33) have passed since the
  last finished frame.
- Otherwise it polls at most one event. A quit request clears the stack. A key press pushes a
  screen, pops the running one or does nothing, depending on the screen's key table.
- It then draws and finishes the frame, which sets the timer to the current tick count.

The model has three modules:

- `Screens` (`screens.dfy`) holds the values and the functions that specify the program. The values
  are the screens, the keys, the events, the 32-bit tick count and a `Config` (stack, timer, pending
  events). The functions are `Respond` (the key tables), `HandleInput`, `ScreenTick`, `Step` (one
  iteration of the main loop) and `Run` (the main loop).
- `Intro` (`intro.dfy`) holds the class `Application`. Its fields `stack: seq<Screen>` and
  `timer: Ticks` are the two globals. Its methods update those fields in place, as the C++ functions
  do. The stack primitives and `FinishFrame` state their effect on the fields directly. The input
  handlers, the screen ticks and the main loop are proved equal to the specification functions.
  `RunProgram` is `main`.
- `ScreenProperties` (`properties.dfy`) holds the lemmas about the specification.

The stack is written bottom first, so the running screen is its last element. `SDL_GetTicks` and
`SDL_PollEvent` are parameters. A clock reading is a `Ticks` value. The program reads the clock
twice in an executed tick: once in `FrameHasElapsed` and once, after input handling and drawing, in
`FinishFrame`. So each tick receives a `Reading` that holds both values, `gate` and `finish`. A
skipped tick uses only `gate`. The interval is therefore measured from the finish reading, as it is
in the program: the time spent on input and drawing is added to the gap between frames rather than
counted within the 33 ms. The event source is a queue of pending events that
each tick receives and hands back, minus what it polled. The main loop takes one `Reading` per
iteration.

The tick count is an unsigned 32-bit value, and `SDL_GetTicks() - g_Timer` is unsigned subtraction.
The model spells out this wrap-around (`Elapsed`) instead of assuming time never wraps. `g_Timer` is
declared `int`. Every value it holds comes from `SDL_GetTicks`, and the subtraction converts it back
to unsigned, so storing it as `Ticks` gives the same differences.

In the C++ program, `pop` on an empty `std::stack` is undefined. The model's `Pop` and `Respond`
therefore require a non-empty stack. Every call site proves this, because only the running screen
pops, and it is the top of a non-empty stack.

## Model

| member | source | states |
|---|---|---|
| `Screens.Elapsed` | c++/intro/Intro.cpp:208-210 | The elapsed time is the 32-bit unsigned difference: `now - timer` when the counter has not wrapped, `2^32 - timer + now` when it has, and always below `2^32`. |
| `Screens.FrameHasElapsed` | c++/intro/Intro.cpp:208-210 | The gate is open when the unsigned difference reaches `FRAME_RATE`. `FRAME_RATE` is `1000/30` in integer division, so 33. Without a wrap, the gate is therefore open exactly when the readings are 33 ms or more apart. |
| `Screens.Popped` | c++/intro/Intro.cpp:151 | Popping removes exactly the top entry: one entry shorter, and the old stack is the result plus the old top. |
| `Screens.Respond` | c++/intro/Intro.cpp:141-206 | The reference definition of the three key tables. Quit gives the empty stack. Every response is one stack operation: clear, pop, nothing, or a push. A push is of Game only from Menu and of Menu only from Exit. `MenuKeys`, `GameKeys`, `ExitKeys` and `OtherEventsIgnored` state each table row. |
| `Screens.Initial` | c++/intro/Intro.cpp:61-69 | The start state has a two-entry stack, Exit at the bottom and Menu on top (Menu runs first). Its timer is the start reading and its queue is the given events. `Intro.Application.Init` is proved to produce it. |
| `Screens.HandleInput` | c++/intro/Intro.cpp:141-147 | The shared part of the three input handlers. With no event pending, nothing changes. Otherwise exactly the first event is consumed and the timer is untouched; by definition the stack becomes the running screen's `Respond` to that event. `TickConsumesAtMostOneEvent` states the same at the level of a tick. |
| `Screens.ScreenTick` | c++/intro/Intro.cpp:80-106 | The reference definition of a screen tick, which the `MenuTick`, `GameTick` and `ExitTick` rows are proved equal to. A tick consumes at most the first pending event. It leaves the timer alone or sets it to the finish reading. It grows the stack by at most one entry. |
| `Screens.Step` | c++/intro/Intro.cpp:49 | The reference definition of one loop iteration, which `Tick` is proved equal to. It runs the tick of `Top(stack)`, the last entry, which models `g_StateStack.top()`. Only the top screen's table applies, so a push puts Game over Menu or Menu over Exit. |
| `Screens.Run` | c++/intro/Intro.cpp:48-50 | The reference definition of the main loop, which `MainLoop` and `RunProgram` are proved equal to. The stack grows by at most one entry per iteration, and the queue never grows. `RunKeepsNavigable`, `RunConsumesEventsInOrder`, `RunIdleWhileFrameNotElapsed` and `RunComposes` state its properties. |
| `Intro.Application.Init` | c++/intro/Intro.cpp:56-69 | Start-up sets the timer to the clock reading and leaves the stack as `[Exit, Menu]`, bottom first. |
| `Intro.Application.Push` | c++/intro/Intro.cpp:155-157 | Push appends one screen on top and leaves the timer alone. |
| `Intro.Application.Pop` | c++/intro/Intro.cpp:151 | Pop, called only on a non-empty stack, removes the top entry and leaves the timer alone. |
| `Intro.Application.ClearStateStack` | c++/intro/Intro.cpp:218-222 | The pop loop ends with an empty stack, from any depth, and the timer unchanged. |
| `Intro.Application.FinishFrame` | c++/intro/Intro.cpp:212-216 | Finishing a frame sets the timer to the current reading and leaves the stack alone. |
| `Intro.Application.HandleMenuInput` | c++/intro/Intro.cpp:141-164 | The method polls at most one event and applies Menu's response: quit clears the stack, Escape/q pops, s pushes Game, anything else is ignored. With no event pending, nothing changes. The timer is untouched. |
| `Intro.Application.HandleGameInput` | c++/intro/Intro.cpp:166-182 | The method polls at most one event and applies Game's response: quit clears the stack, Escape pops, anything else is ignored. |
| `Intro.Application.HandleExitInput` | c++/intro/Intro.cpp:184-206 | The method polls at most one event and applies Exit's response: quit clears the stack, y pops, n pushes Menu, anything else is ignored. |
| `Intro.Application.MenuTick` | c++/intro/Intro.cpp:80-88 | A Menu tick equals `ScreenTick(Menu, …)`. It changes nothing unless the frame interval has passed by the gate reading. Otherwise it handles input and finishes the frame at the later finish reading. |
| `Intro.Application.GameTick` | c++/intro/Intro.cpp:90-97 | A Game tick equals `ScreenTick(Game, …)`: the same gate reading, input handling, and frame finished at the finish reading. |
| `Intro.Application.ExitTick` | c++/intro/Intro.cpp:99-106 | An Exit tick equals `ScreenTick(Exit, …)`: the same gate reading, input handling, and frame finished at the finish reading. |
| `Intro.Application.Tick` | c++/intro/Intro.cpp:49 | One dispatch runs the tick of the screen on top of the stack, and only that one, and equals `Step`. |
| `Intro.Application.MainLoop` | c++/intro/Intro.cpp:48-50 | The loop ticks the top screen once per pair of readings until the stack is empty, and its final state equals `Run`. |
| `Intro.RunProgram` | c++/intro/Intro.cpp:45-54 | Start-up followed by the main loop yields exactly `Run(Initial(start, queue), readings)`. |
| `ScreenProperties.FrameGateOpensAfterInterval` | c++/intro/Intro.cpp:208-216 | After a frame finishes at `timer`, the gate is shut for the next 32 ms and open from 33 ms on, including across a counter wrap. Both directions are proved. |
| `ScreenProperties.SkippedTickChangesNothing` | c++/intro/Intro.cpp:80-81 | A tick before the interval is over leaves the stack, the timer and the event queue exactly as they were. |
| `ScreenProperties.ExecutedTickFinishesFrame` | c++/intro/Intro.cpp:80-88 | Every executed tick, including one that popped or cleared the stack, ends with the timer at the finish reading taken after drawing. The gate is therefore shut at that reading, and any later reading that has not wrapped opens it exactly when it is 33 ms or more past the finish. |
| `ScreenProperties.IntervalStartsAtFrameFinish` | c++/intro/Intro.cpp:212-216 | A frame gated at `t` that finishes at `t + 5` makes a reading at `t + 33` a skipped tick. The interval counts from the end of the frame, not from its gate reading. |
| `ScreenProperties.TickConsumesAtMostOneEvent` | c++/intro/Intro.cpp:141-142 | An executed tick with pending events removes exactly the first one. Any other tick removes none. With no pending event the stack is unchanged. |
| `ScreenProperties.QuitClearsStack` | c++/intro/Intro.cpp:144-146 | A quit request empties the stack whatever screen is on top and however deep the stack is, and consumes only that event. |
| `ScreenProperties.MenuKeys` | c++/intro/Intro.cpp:148-161 | On Menu, Escape or q pops exactly one entry, s gives `old + [Game]`, and every other key leaves the stack unchanged. |
| `ScreenProperties.GameKeys` | c++/intro/Intro.cpp:173-180 | On Game, Escape pops exactly one entry and every other key leaves the stack unchanged. |
| `ScreenProperties.ExitKeys` | c++/intro/Intro.cpp:191-203 | On Exit, y pops exactly one entry, n gives `old + [Menu]`, and every other key leaves the stack unchanged. |
| `ScreenProperties.OtherEventsIgnored` | c++/intro/Intro.cpp:147-163 | An event that is neither a quit request nor a key press leaves every screen's stack unchanged. |
| `ScreenProperties.StartThenEscapeRestores` | c++/intro/Intro.cpp:148-180 | From Menu, s and then Escape on two executed ticks push Game and then give back the original stack. Only the timer, now the second finish reading, and the two consumed events differ. |
| `ScreenProperties.DeclineThenQuitRestores` | c++/intro/Intro.cpp:148-203 | From Exit, n and then q on two executed ticks push Menu and then give back the original stack. |
| `ScreenProperties.NavigableTopDeterminesStack` | c++/intro/Intro.cpp:141-206 | In a reachable stack the running screen determines the whole stack: Exit means `[Exit]`, Menu means `[Exit, Menu]`, and Game means `[Exit, Menu, Game]`. |
| `ScreenProperties.StepKeepsNavigable` | c++/intro/Intro.cpp:141-206 | Every tick maps a prefix of `[Exit, Menu, Game]` to a prefix of `[Exit, Menu, Game]`. |
| `ScreenProperties.RunKeepsNavigable` | c++/intro/Intro.cpp:48-50 | The main loop keeps the stack a prefix of `[Exit, Menu, Game]`. |
| `ScreenProperties.ProgramStaysNavigable` | c++/intro/Intro.cpp:64-69 | From the seeded `[Exit, Menu]`, every stack the loop reaches is `[]`, `[Exit]`, `[Exit, Menu]` or `[Exit, Menu, Game]`, so it never holds more than three entries. |
| `ScreenProperties.RunStopsOnEmptyStack` | c++/intro/Intro.cpp:48 | Once the stack is empty, the loop stops and further readings change nothing. |
| `ScreenProperties.RunComposes` | c++/intro/Intro.cpp:48-50 | Running on readings `a` and then on `b` is the same as running on `a + b`. |
| `ScreenProperties.RunIdleWhileFrameNotElapsed` | c++/intro/Intro.cpp:208-210 | While no gate reading is a frame interval past the timer, the loop spins: stack, timer and pending events all stay as they are. |
| `ScreenProperties.RunConsumesEventsInOrder` | c++/intro/Intro.cpp:141-142 | The loop takes events from the front of the queue, in order, and at most one per iteration. |
| `ScreenProperties.RunOne` | c++/intro/Intro.cpp:48-49 | One pair of readings runs the top screen's tick once, unless the stack is already empty. |
| `ScreenProperties.StartEscapeQuitConfirmTicks` | c++/intro/Intro.cpp:141-206 | The scenario's four executed ticks one at a time. Each consumes its key, applies the running screen's table entry (push Game, pop, pop, pop) and stores its finish reading. |
| `ScreenProperties.StartEscapeQuitConfirm` | c++/intro/Intro.cpp:64-69 | From the seeded stack, s, Escape, q and y on four executed ticks (each frame finishes 5 ms after its gate reading) give `[Exit, Menu, Game]`, then `[Exit, Menu]`, then `[Exit]`, then `[]`. After that the loop stops, whatever readings follow. |

## Left out

- Window, renderer and bitmap creation, `TTF_Init`, and `Shutdown`: these are library calls with no logic.
- Drawing: `DrawBackground`, `ClearScreen`, `DisplayText` and the two present calls in `FinishFrame`. These are output only and do not affect the stack or the timer.
- `SDL_PollEvent` and `SDL_GetTicks` as mechanisms: the pending events and the clock readings are parameters. The global `g_Event` that holds the last polled event is not kept.
- The `double` type of `FRAME_RATE`: it holds exactly 33.0, and comparing an integer difference with it is the same as comparing with the integer 33.
- The function-pointer dispatch of stack entries: it becomes the `Screen` datatype and a `match`.
- `Intro.Application.MainLoop`: the real loop runs for as long as the stack is non-empty. The model runs it on a finite list of per-iteration readings and stops when the stack is empty or the list runs out.
- `Screens.Run`: all events are queued before the loop starts. Events that arrive while it runs are expressed only at the level of a single tick, since `Step` and `Tick` accept any queue.
