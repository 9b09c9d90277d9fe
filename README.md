# wasm-pong engine core, modelled in Dafny

This project models the small, self-contained pieces of logic inside the
wasm-pong engine. The engine is a C++ SDL/OpenGL game skeleton that builds
both natively and for the web through Emscripten. The repository holds two
generations of the same files: the `Engine` tree under `src/Engine` and the
older top-level draft files directly under `src`. Where the two differ, the
model takes a `Build` (`Engine` or `Draft`) and follows each copy.

- `common.dfy` (`Common`) holds:
  - the `Build` switch and the `Option`/`Result` wrappers;
  - the C++ integer conversions to `uint32_t` and `int32_t`, written out modulo 2^32;
  - subsequences;
  - the decimal text `std::to_string` writes, with a parser that reads it back.
- `runtime_exception.dfy` (`RuntimeException`): the engine's
  `RuntimeException`, whose text is message, `" - "`, then details.
- `native_handle.dfy` (`NativeHandle`):
  - `makeObject` (both overloads) and `makeNullObject`, and the draft's `make_object` and `null_object`;
  - a model of the `std::unique_ptr` holders these are stored in. Holders are assigned, moved and reset, and the model records every destroy call they make.
- `event_queue.dfy` (`SdlEvents`, `EventQueue`):
  - SDL's pending-event queue as a class whose `PushEvent` and `PollEvent` change a `seq` of events;
  - the engine's `push`, `poll` and `any`. `any` drains the queue while OR-ing a predicate, then pushes every event back.
- `window.dfy` (`Window`): the `Window` class. It has the open, visible and focused flags, the size, the two owned handles (native window and GL context), and a ghost log of the SDL and GL calls it makes. It covers `create` and its steps, `handleEvent`, `close`, `show`, `hide`, `swap` and the accessors.
- `opengl.dfy` (`OpenGLText`, `OpenGL`):
  - `checkError`, which maps a GL error code to its description and builds an `OpenglException` for a non-zero code;
  - the exception's message text;
  - one expansion of the `GL(...)` and `GL_CHECK()` macros.

  The error codes are those of section 2.5 (GL Errors, Table 2.3) of the OpenGL ES 3.0 specification.
- `game_loop.dfy` (`GameLoop`):
  - `initGameLoop`'s native do/while driver, as a method over given clock readings and given answers from the context's `loop`;
  - the web driver's per-callback step, as a class holding the variables the callback captures.

  What the driver does is recorded as a trace of effects.
- `update_profiler.dfy` (`UpdateProfiler`): the profiler's two counters, and `update`/`report` on them, in integer nanoseconds.
- `resource_provider.dfy` (`ResourceProvider`): the pending-file list and the `complete` flag. It covers `add`, `onSuccess`, `onError` and the native `prepare`.

The values that SDL, GL and the host would supply are inputs to the model:
- the handles returned by `SDL_CreateWindow` and `SDL_GL_CreateContext`;
- `SDL_GetError()`;
- whether `SDL_PushEvent` accepts an event;
- what `glGetError` returns;
- the clock readings;
- the answers of `loop`;
- whether a file exists.

## Model

| member | source | states |
|---|---|---|
| Common.ToU32 | src/Engine/IO/Window.cpp:98 | conversion to uint32_t: the result lies in [0, 2^32) and is congruent to the input modulo 2^32 |
| Common.ToI32 | src/Engine/IO/Window.cpp:25 | conversion to int32_t: the result lies in [-2^31, 2^31) and is congruent to the input modulo 2^32 |
| Common.IntToString | src/Engine/Graphics/OpenGL/OpenGL.hpp:48-49 | std::to_string of an int is non-empty. It starts with '-' exactly when the value is negative, and everything else is decimal digits |
| Common.IntToStringRoundTrip | src/Engine/Graphics/OpenGL/OpenGL.hpp:48-49 | the written integer is read back exactly, whatever non-digit text follows it |
| RuntimeException.RuntimeError.What | src/Engine/Exceptions/RuntimeException.hpp:14-18 | what() has length \|message\| + 3 + \|details\|. The message is its prefix, " - " follows it, and details is its suffix. Draft copy (src/RuntimeException.hpp:11-14): the draft's text has the same layout (its constructor prints nothing) |
| RuntimeException.SplitWhat | src/Engine/Exceptions/RuntimeException.hpp:15 | message and details are recovered from what() given the message length |
| RuntimeException.WhatInjective | src/Engine/Exceptions/RuntimeException.hpp:15 | two errors with equally long messages and the same what() are the same error |
| NativeHandle.MakeObject | src/Engine/SDL/Object.hpp:21-32 | fails exactly on a null instance, with RuntimeException("Error creating Object", SDL error). Otherwise it holds exactly that pointer and destroy function. Draft copy (src/SDL.hpp:18-29): make_object: the same, with the text "Error creating SDLObject" |
| NativeHandle.Apply | src/Engine/SDL/Object.hpp:19 | one assignment (`_window = makeObject(...)` at src/Engine/IO/Window.cpp:22 and `_glContext = ...` at line 62), move or reset of a unique_ptr: only the targeted holders change, the destination's old object is released when non-null, a moved-from or reset holder holds null, and a self move-assignment changes nothing |
| NativeHandle.Run | src/Engine/SDL/Object.hpp:19 | a run of those operations keeps the number of holders, releases at most one object per operation, and never releases a null pointer |
| NativeHandle.MakeObjectFrom | src/Engine/SDL/Object.hpp:34-43 | the create overload is the instance overload applied to one call of create. It fails exactly when that call returns null. Draft copy (src/SDL.hpp:31-40): the draft's create overload delegates the same way |
| NativeHandle.MakeNullObject | src/Engine/SDL/Object.hpp:45-50 | a null pointer with a no-op deleter, whose release makes no destroy call. Draft copy (src/SDL.hpp:42-46): null_object: the same |
| NativeHandle.Destruct | src/Engine/SDL/Object.hpp:19 | a unique_ptr giving up its object calls the deleter at most once. It calls it on that object, and exactly when the pointer is non-null |
| NativeHandle.ApplyConserves | src/Engine/SDL/Object.hpp:19 | an assignment, move or reset neither creates nor loses an owned object (multiset balance) |
| NativeHandle.MoveConserves | src/Engine/SDL/Object.hpp:19 | move-assignment destroys exactly what the destination held and leaves the source null |
| NativeHandle.RunConserves | src/Engine/SDL/Object.hpp:19 | over any run of operations, owned plus destroyed equals owned at the start plus brought in |
| NativeHandle.DestroyedExactlyOnce | src/Engine/SDL/Object.hpp:19 | from null holders to scope exit, each object handed to a holder is destroyed exactly once per hand-over, and never a null pointer |
| EventQueue.Succeeded | src/Engine/SDL/EventQueue.hpp:14-22 | the Engine copy treats only SDL's answer 1 as success. The draft's to_bool treats any non-zero answer as success |
| EventQueue.Push | src/Engine/SDL/EventQueue.hpp:14-17 | the result is the SDL answer compared with 1. The event is at the back of the queue exactly when SDL accepted it |
| EventQueue.Poll | src/Engine/SDL/EventQueue.hpp:19-22 | true exactly when an event was pending; that front event is returned and removed. Otherwise the queue is empty |
| EventQueue.Drain | src/Engine/SDL/EventQueue.hpp:28-37 | the drain loop removes every pending event, keeps them in order, and ORs the predicate over all of them |
| EventQueue.Repush | src/Engine/SDL/EventQueue.hpp:39-42 | each drained event is pushed once, in order. The queue ends as the accepted ones, ignoring failures |
| EventQueue.Any | src/Engine/SDL/EventQueue.hpp:24-45 | the result is the OR of the predicate over the events pending at the call, whatever the pushes answer. The queue afterwards holds the accepted events in order. Draft copy (src/SDLEventQueue.hpp:24-47): the draft's any: the same; its final clear of the local buffer cannot be observed once any returns |
| EventQueue.AnyOfExists | src/Engine/SDL/EventQueue.hpp:28-37 | the OR is true exactly when some pending event satisfies the predicate; an empty queue gives false |
| EventQueue.RequeuedIsSubsequence | src/Engine/SDL/EventQueue.hpp:39-42 | whatever SDL answers, the events that come back are a subsequence of the drained ones: in order, none duplicated |
| EventQueue.RequeuedRestores | src/Engine/SDL/EventQueue.hpp:39-42 | when every push is accepted, the queue is restored exactly |
| EventQueue.AnyRestoresBoundedQueue | src/SDLEventQueue.hpp:36-42 | with a queue that refuses only when full, everything drained fits back |
| Window.StoredSize | src/Engine/IO/Window.cpp:21 | the Engine copy stores the request plus one pixel of width in uint32_t arithmetic, wrapping to 0 at the top. Draft copy (src/Window.cpp:18): the draft stores the request unchanged |
| Window.NativeWidthSameInBothBuilds | src/Window.cpp:22 | both copies create the native window with width int32_t(requested.x + 1) |
| Window.ExternalResizePendingIff | src/Engine/IO/Window.cpp:36-40 | the resize check is true exactly when a pending event is a RESIZED window event |
| Window.Window.constructor | src/Engine/IO/Window.hpp:41-47 | a new window is open, visible and focused, and holds two null handles. Draft copy (src/Window.hpp:56-62): the draft's window starts in the same state |
| Window.Window.Create | src/Engine/IO/Window.cpp:17-32 | covers the stored size, the call sequence (window creation, release of the old window, the initial resize unless a RESIZED event is pending, context attributes, context creation, release of the old context, linking, configuration) and its early stop on a null handle, the error, the handles, and the event queue: the events the new window posts are appended, then scanned and restored. Draft copy (src/Window.cpp:14-29): the draft's create, with its own stored size and native width |
| Window.Window.CreateNativeWindow | src/Engine/IO/Window.cpp:21-26 | stores the size and creates the window at the native width. A new handle replaces (and destroys) the old one, and the events the new window posts join the queue; a null handle is an error and leaves the queue as it was. Draft copy (src/Window.cpp:18-23): the draft's first step of create |
| Window.Window.SetInitialWindowSize | src/Engine/IO/Window.cpp:34-48 | resizes and recentres exactly when no RESIZED event was pending. The queue ends as any leaves it. Draft copy (src/Window.cpp:31-45): the draft resizes to _size, which is the request |
| Window.Window.InitOpenGL | src/Engine/IO/Window.cpp:50-65 | sets the context attributes (the 3.0 version only off the web), then creates the GL context (an error if null, else it replaces and destroys the old one), then links. Draft copy (src/Window.cpp:47-62): the draft's initOpenGL |
| Window.Window.Configure | src/Engine/IO/Window.cpp:67-82 | a viewport of the stored size, then the fixed render state. Draft copy (src/Window.cpp:64-79): the draft's viewport uses _size |
| Window.Window.HandleEvent | src/Engine/IO/Window.cpp:84-138 | true exactly for window events. The new state and the calls follow the event subtype; the handles are unchanged. Draft copy (src/Window.cpp:81-135): the draft's handleEvent |
| Window.Window.Close | src/Engine/IO/Window.cpp:155-162 | not open; off the web also hidden, through one SDL_HideWindow. Draft copy (src/Window.cpp:147-154): the draft's close |
| Window.Window.Show | src/Engine/IO/Window.cpp:169-173 | one SDL_ShowWindow, then visible. Draft copy (src/Window.cpp:161-165): the draft's show |
| Window.Window.Hide | src/Engine/IO/Window.cpp:175-179 | one SDL_HideWindow, then not visible. Draft copy (src/Window.cpp:167-171): the draft's hide |
| Window.Window.Swap | src/Engine/IO/Window.cpp:140-143 | one buffer swap and nothing else. Draft copy (src/Window.hpp:40-45): the draft's swap asserts that a window is held, which is its precondition |
| Window.Window.GetSize | src/Engine/IO/Window.cpp:145-148 | returns the stored size. Draft copy (src/Window.cpp:137-140): returns _size |
| Window.Window.IsOpen | src/Engine/IO/Window.cpp:150-153 | returns the open flag |
| Window.Window.IsVisible | src/Engine/IO/Window.cpp:164-167 | returns the visible flag |
| Window.Window.IsFocused | src/Engine/IO/Window.cpp:181-184 | returns the focused flag |
| Window.NonWindowEventIgnored | src/Engine/IO/Window.cpp:86-89 | a non-window event changes no state and makes no call |
| Window.UnhandledWindowEventIgnored | src/Engine/IO/Window.cpp:134 | a window event other than a resize, focus, show, hide or close falls to the default case: no state changes and no call is made. Draft copy (src/Window.cpp:131): the same default |
| Window.ResizeAppliesViewport | src/Engine/IO/Window.cpp:95-101 | RESIZED/SIZE_CHANGED stores (data1, data2), keeps the flags, and makes exactly one viewport call of that size |
| Window.FlagEventsTouchOneFlag | src/Engine/IO/Window.cpp:104-126 | focus events set only isFocused, and shown/hidden events set only isVisible |
| Window.CloseEventCloses | src/Engine/IO/Window.cpp:128-132 | a close request clears isOpen, and off the web also isVisible. It leaves focus and size unchanged |
| Window.OnEventIdempotent | src/Engine/IO/Window.cpp:93-135 | handling an event twice leaves the same state as handling it once |
| Window.ClosedStaysClosed | src/Engine/IO/Window.cpp:84-138 | no sequence of events reopens a closed window |
| Window.CloseIsFinal | src/Engine/IO/Window.cpp:128-132 | after a close request, the window stays not open whatever events follow |
| OpenGL.Describe | src/Engine/Graphics/OpenGL/OpenGL.cpp:29-39 | the description is "Unknown error" exactly when the code is not one of the five standard errors. Draft copy (src/opengl.hpp:59-69): the draft's switch is the same |
| OpenGL.DescriptionsDistinct | src/Engine/Graphics/OpenGL/OpenGL.cpp:31-37 | the five standard errors have five different descriptions |
| OpenGL.CheckError | src/Engine/Graphics/OpenGL/OpenGL.cpp:20-48 | never returns true, and returns false exactly on GL_NO_ERROR. Otherwise it throws an exception with the file, the line converted to unsigned, the call (null gives ""), the int code, the description and the message. Draft copy (src/opengl.hpp:50-78): the draft's checkError, with its own message prefix |
| OpenGL.CheckErrorKeepsStandardCode | src/Engine/Graphics/OpenGL/OpenGL.cpp:41 | a standard error code is stored unchanged as the exception's int code |
| OpenGL.NewException | src/Engine/Graphics/OpenGL/OpenGL.hpp:42-52 | the fields are the arguments. The line is converted to unsigned (wrapping a negative line), and what() is the composed message. Draft copy (src/opengl.hpp:32-42): the draft's constructor |
| OpenGL.OpenglException.What | src/Engine/Graphics/OpenGL/OpenGL.hpp:54-57 | what() is the message stored at construction |
| OpenGLText.TailShape | src/Engine/Graphics/OpenGL/OpenGL.hpp:48-50 | the text after the code starts with a space. It ends with " - `call`" when a call is given, and otherwise with the line number as std::to_string writes it, whose last character is a digit |
| OpenGLText.Message | src/Engine/Graphics/OpenGL/OpenGL.hpp:48-50 | the message begins with the build's prefix, "GL error ", followed by more text. Draft copy (src/opengl.hpp:38-40): the draft's message, with the prefix "OpenGL error " |
| OpenGL.MessageEndsWithCall | src/Engine/Graphics/OpenGL/OpenGL.hpp:50 | with a non-empty call, the message ends with " - `call`" |
| OpenGL.MessageEndsWithLine | src/Engine/Graphics/OpenGL/OpenGL.hpp:49-50 | with an empty call, the message ends with the line number as std::to_string writes it, so with a digit |
| OpenGL.MessageShowsCallIff | src/Engine/Graphics/OpenGL/OpenGL.hpp:50 | the message ends with a backquote exactly when a call text was given |
| OpenGL.MessageRecoversCode | src/Engine/Graphics/OpenGL/OpenGL.hpp:48 | the error code is read back from the text right after the prefix |
| OpenGL.MessagesDifferOnlyInPrefix | src/opengl.hpp:38-40 | the draft's "OpenGL error " message and the Engine's "GL error " message agree after their prefixes and differ as wholes |
| OpenGL.Expand | src/Engine/Graphics/OpenGL/OpenGL.hpp:16-22 | with checks on, the call then exactly one error-flag read, throwing exactly when the flag is not GL_NO_ERROR. With checks off, only the call, which never throws. Draft copy (src/opengl.hpp:81-87): the draft's macros expand the same way |
| GameLoop.LoopCount | src/Engine/GameLoop.hpp:37-43 | loop runs up to and including its first false answer, or through every given answer |
| GameLoop.LoopCountUnique | src/Engine/GameLoop.hpp:37-43 | a false at position n after only trues means exactly n runs |
| GameLoop.RunNative | src/Engine/GameLoop.hpp:9-49 | the trace is create, init, read the start time, then per tick (read, loop with the difference), then destroy. The driver returns 0 once loop answered false |
| GameLoop.MainLoopFrame.constructor | src/Engine/GameLoop.hpp:12-16 | the context is created and initialised, the start time read, and the delta is zero |
| GameLoop.MainLoopFrame.Callback | src/Engine/GameLoop.hpp:19-30 | delta = now - previous, previous = now. On false the context is destroyed and the loop cancelled; the trace stays the native driver's |
| GameLoop.TickTraceEntries | src/Engine/GameLoop.hpp:39-41 | tick k reads r[k+1] and passes r[k+1] - r[k] to loop |
| GameLoop.TickTraceTelescopes | src/Engine/GameLoop.hpp:37-43 | one loop call per tick, and the deltas sum to the last reading minus the start reading |
| GameLoop.SteadyClockDeltasNonNegative | src/Engine/GameLoop.hpp:39-41 | with a non-decreasing clock every delta is >= 0 |
| GameLoop.LoopRunsUntilFalse | src/Engine/GameLoop.hpp:37-43 | K trues then a false give K + 1 loop calls, whose deltas sum to the elapsed time |
| GameLoop.LifecycleShape | src/Engine/GameLoop.hpp:12-45 | create and init happen once, first. Destroy happens at most once, as the last effect |
| GameLoop.NativeLifecycle | src/Engine/GameLoop.hpp:37-45 | the native driver destroys the context exactly when loop answered false, after the last loop call |
| UpdateProfiler.Reported | src/Engine/Debug/UpdateProfiler.cpp:23-39 | below one second nothing changes. Otherwise exactly one second is taken off, the total stays non-negative, and the count restarts |
| UpdateProfiler.UpdateProfiler.constructor | src/Engine/Debug/UpdateProfiler.cpp:9-13 | total 0 and count 0 |
| UpdateProfiler.UpdateProfiler.Update | src/Engine/Debug/UpdateProfiler.cpp:15-21 | adds the delta, counts the tick, then reports |
| UpdateProfiler.UpdateProfiler.Report | src/Engine/Debug/UpdateProfiler.cpp:23-39 | the report step on the fields. A second accumulated with a count of zero (a division by zero in the average) is excluded |
| UpdateProfiler.UpdateKeepsBelowSecond | src/Engine/Debug/UpdateProfiler.cpp:15-21 | with deltas of at most one second, a total below one second stays in [0, 1s) |
| UpdateProfiler.UpdateCountsTicks | src/Engine/Debug/UpdateProfiler.cpp:17-37 | the count restarts exactly when the report fires, and otherwise grows by one |
| UpdateProfiler.TimeIsConserved | src/Engine/Debug/UpdateProfiler.cpp:17-36 | over any run of updates, the remaining total plus one second per report equals the start plus all deltas |
| UpdateProfiler.TicksSinceLastReport | src/Engine/Debug/UpdateProfiler.cpp:18-37 | the count never exceeds the updates made, and equals them when no report fired |
| UpdateProfiler.LongTickLeavesBacklog | src/Engine/Debug/UpdateProfiler.cpp:29-37 | a 3 s tick reports once and leaves 2 s with a count of 0. A direct report() then would divide by zero |
| ResourceProvider.RemoveAll | src/Engine/IO/ResourceProvider.hpp:26 | list::remove takes out every copy of the file, keeps every other file's count, and never grows the list |
| ResourceProvider.RemoveAllIsSubsequence | src/Engine/IO/ResourceProvider.hpp:26 | the remaining files keep their order |
| ResourceProvider.RemoveAbsent | src/Engine/IO/ResourceProvider.hpp:33 | removing an absent file changes nothing |
| ResourceProvider.RemoveIdempotent | src/Engine/IO/ResourceProvider.hpp:26 | removing twice is removing once |
| ResourceProvider.RemoveAllShrinks | src/Engine/IO/ResourceProvider.hpp:26 | removal never brings in a file |
| ResourceProvider.RemoveEachRemoves | src/Engine/IO/ResourceProvider.hpp:41-47 | after the callbacks for a list of files, none of them is left and nothing new has appeared |
| ResourceProvider.RemoveEachOfItself | src/Engine/IO/ResourceProvider.hpp:39-47 | answering every file of the snapshot empties the list |
| ResourceProvider.ResourceProvider.constructor | src/Engine/IO/ResourceProvider.hpp:15 | not complete, and the list is empty |
| ResourceProvider.ResourceProvider.Add | src/Engine/IO/ResourceProvider.hpp:17-21 | appends at the end and clears complete |
| ResourceProvider.ResourceProvider.OnSuccess | src/Engine/IO/ResourceProvider.hpp:23-28 | removes every copy. Complete exactly when the list is then empty |
| ResourceProvider.ResourceProvider.OnError | src/Engine/IO/ResourceProvider.hpp:30-35 | removes every copy. Not complete |
| ResourceProvider.ResourceProvider.PrepareFile | src/Engine/Integrations/Emscripten.hpp:40-53 | natively, the path is requested and answered with onSuccess if it exists, otherwise onError |
| ResourceProvider.ResourceProvider.Prepare | src/Engine/IO/ResourceProvider.hpp:37-48 | iterates over a snapshot and requests every snapshot entry, duplicates included, in order. The list ends empty, and complete follows the last entry's answer (unchanged for an empty list) |

## Left out

- src/main.cpp is not part of this model. Neither are the demo's rendering and the global loop trampoline: they are GL/SDL driver calls.
- `compileProgram`, `link` and `printContext` are left out: GL driver calls and the loader. `link` appears only as the `LinkGL` entry in the window's call log.
- Surface and Renderer wrappers: their only logic is the null check that `MakeObject` models.
- The Emscripten and Callable trampolines, the web build's `emscripten_async_wget`, and the scheduler registration of the web game loop are left out. They are foreign and type-level code.
- The web build of `prepareFile` is left out, because the answer arrives asynchronously; only the native branch is modelled.
- `FileSystem::fileExists` is left out (it is file I/O). Whether a path exists is a parameter.
- Printing to standard output is left out. This covers the Engine `RuntimeException`'s print, `checkError`'s print, the resource callbacks' prints and the profiler's report line.
- The profiler's average and its `setprecision` formatting are left out. `DeltaTime` is defined in Engine/Common.hpp, which is not part of this model and may be floating point, so durations are integer nanoseconds.
- The host scheduler's concurrency is left out. The web driver is modelled one callback at a time.
- RunNative: the native loop runs until `loop` answers false. With finitely many given answers, all true, the model stops and returns None for a loop still running.
- The `GL(...)` checks inside `Window::configure` and `handleEvent` follow the release expansion, so the call log records the calls and no error check; `Expand` models the debug expansion on its own.
- The draft's `to_bool` is not part of this model; `Succeeded` takes it to mean non-zero.
- The draft `State` also has a `mode` field that nothing in the draft `Window.cpp` reads or writes, so it is not modelled.
- The draft `Window.cpp` builds its placeholders with `null_SDLObject`, while src/SDL.hpp defines `null_object`; both are modelled as `MakeNullObject`.
- Window.Window.constructor: promises nothing about the size. The source leaves it uninitialised, and the model stores (0, 0) only because Dafny needs a value.
- Narrowing of SDL's signed `data1`/`data2` into the `uint32_t` size is modelled as the conversion modulo 2^32.
- Window.Window.Create: the events SDL_CreateWindow queues are an input (`posted`), appended only when a window is made; which events SDL posts is not modelled.
- EventQueue.Any: SDL_PollEvent also pumps the operating system's events into the queue while any drains it; the model reads the queue as holding only what was pending at the call (plus, in Window.Window.Create, the posted events), so events arriving during the drain are not modelled.
- SDL's own behaviour is inputs: the handles `SDL_CreateWindow` and `SDL_GL_CreateContext` return, `SDL_GetError()`, and whether a push is accepted (a function of the queue and the event).
- The window's SDL and GL calls are recorded in a ghost log rather than performed.
- The size of the profiler's `size_t` tick count is not modelled; it is unbounded here.
