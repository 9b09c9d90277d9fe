/** The engine's Window: a native SDL window and its GL context, each held
    in an owning handle, and the state the window keeps from window events
    and from its own show/hide/close calls. Calls into SDL and GL are
    recorded in a ghost log instead of being performed. The Engine copy
    keeps the size inside its State struct and stores the requested size
    plus one pixel of width; the Draft copy keeps `_size` beside State and
    stores the requested size, adding the pixel only for the native window. */
module Window {
  import opened Common
  import opened NativeHandle
  import opened RuntimeException
  import opened SdlEvents
  import EventQueue

  /** vec2<uint32_t> */
  datatype Vec2 = Vec2(x: U32, y: U32)

  /** The window's own state: the three flags and the size. */
  datatype WindowState = WindowState(isOpen: bool, isVisible: bool, isFocused: bool, size: Vec2)

  /** The SDL and GL calls the window makes, in order. */
  datatype NativeCall =
    | CreateWindow(title: string, width: I32, height: I32, flags: U32)  // centred, resizable, shown, OpenGL
    | SetWindowSize(width: I32, height: I32)
    | CenterWindow
    | ContextAttributes(setsVersion: bool)  // ES profile, double buffer, 32-bit depth; 3.0 off the web
    | CreateContext                        // SDL_GL_CreateContext on the window
    | LinkGL
    | Viewport(width: I32, height: I32)     // glViewport(0, 0, width, height)
    | RenderDefaults                        // blending, depth test, back-face culling, swap interval 0
    | ShowWindow
    | HideWindow
    | SwapWindow
    | Destroyed(handle: Object)             // a handle holder's destroy call

  const DESTROY_WINDOW: Deleter := Destroy("SDL_DestroyWindow")
  const DELETE_CONTEXT: Deleter := Destroy("SDL_GL_DeleteContext")

  /** The size `create` stores: the Engine copy adds one pixel of width in
      uint32_t arithmetic, the Draft copy stores the request. */
  function StoredSize(build: Build, requested: Vec2): (s: Vec2)
    ensures build == Draft ==> s == requested
    ensures build == Engine ==> s.y == requested.y
    ensures build == Engine && requested.x < TWO_32 - 1 ==> s.x == requested.x + 1
    ensures build == Engine && requested.x == TWO_32 - 1 ==> s.x == 0
  {
    match build
    case Engine => Vec2(ToU32(requested.x + 1), requested.y)
    case Draft => requested
  }

  /** The width passed to SDL_CreateWindow: int32_t of the stored width
      (Engine), or of the stored width plus one (Draft). */
  function NativeWidth(build: Build, requested: Vec2): I32 {
    var stored := StoredSize(build, requested);
    match build
    case Engine => ToI32(stored.x)
    case Draft => ToI32(ToU32(stored.x + 1))
  }

  /** Both copies create the native window at the same size; they differ
      only in the size they remember. */
  lemma NativeWidthSameInBothBuilds(requested: Vec2)
    ensures NativeWidth(Engine, requested) == NativeWidth(Draft, requested)
    ensures NativeWidth(Engine, requested) == ToI32(requested.x + 1)
  {
  }

  /** The predicate setInitialWindowSize asks EventQueue::any about. */
  function IsExternalResize(e: Event): bool {
    e.kind == SDL_WINDOWEVENT && e.windowEvent == WINDOWEVENT_RESIZED
  }

  lemma ExternalResizePendingIff(pending: seq<Event>)
    ensures EventQueue.AnyOf(pending, IsExternalResize) <==>
      exists k :: 0 <= k < |pending| && pending[k].kind == SDL_WINDOWEVENT
                                      && pending[k].windowEvent == WINDOWEVENT_RESIZED
  {
    EventQueue.AnyOfExists(pending, IsExternalResize);
  }

  /** setInitialWindowSize's calls: resize to the request and recentre,
      unless the host already resized the window. */
  function InitialSizeCalls(requested: Vec2, resizedExternally: bool): seq<NativeCall> {
    if resizedExternally then []
    else [SetWindowSize(ToI32(requested.x), ToI32(requested.y)), CenterWindow]
  }

  /** The destroy call made when a holder holding `o` is assigned over. */
  function ReleaseCalls(o: Object): seq<NativeCall> {
    if o.ptr != Null then [Destroyed(o)] else []
  }

  /** configure(): the viewport covers the stored size, then the fixed
      render state and swap interval. */
  function ConfigureCalls(size: Vec2): seq<NativeCall> {
    [Viewport(ToI32(size.x), ToI32(size.y)), RenderDefaults]
  }

  predicate IsWindowEvent(e: Event) {
    e.kind == SDL_WINDOWEVENT
  }

  predicate IsResize(e: Event) {
    e.windowEvent == WINDOWEVENT_RESIZED || e.windowEvent == WINDOWEVENT_SIZE_CHANGED
  }

  /** close(): not open any more; off the web also hidden. */
  function Closed(s: WindowState, onWeb: bool): WindowState {
    s.(isOpen := false, isVisible := if onWeb then s.isVisible else false)
  }

  /** handleEvent's effect on the window state. */
  function OnEvent(s: WindowState, e: Event, onWeb: bool): WindowState {
    if !IsWindowEvent(e) then s
    else if IsResize(e) then s.(size := Vec2(ToU32(e.data1), ToU32(e.data2)))
    else if e.windowEvent == WINDOWEVENT_FOCUS_GAINED then s.(isFocused := true)
    else if e.windowEvent == WINDOWEVENT_FOCUS_LOST then s.(isFocused := false)
    else if e.windowEvent == WINDOWEVENT_SHOWN then s.(isVisible := true)
    else if e.windowEvent == WINDOWEVENT_HIDDEN then s.(isVisible := false)
    else if e.windowEvent == WINDOWEVENT_CLOSE then Closed(s, onWeb)
    else s
  }

  /** handleEvent's calls: a viewport of the new size on a resize, and
      SDL_HideWindow when a close hides the window. */
  function EventCalls(s: WindowState, e: Event, onWeb: bool): seq<NativeCall> {
    if !IsWindowEvent(e) then []
    else if IsResize(e) then ConfigureViewport(Vec2(ToU32(e.data1), ToU32(e.data2)))
    else if e.windowEvent == WINDOWEVENT_CLOSE && !onWeb then [HideWindow]
    else []
  }

  function ConfigureViewport(size: Vec2): seq<NativeCall> {
    [Viewport(ToI32(size.x), ToI32(size.y))]
  }

  /** handleEvent over a sequence of events. */
  function OnEvents(s: WindowState, events: seq<Event>, onWeb: bool): WindowState
    decreases |events|
  {
    if events == [] then s
    else OnEvent(OnEvents(s, events[..|events| - 1], onWeb), events[|events| - 1], onWeb)
  }

  class Window {
    const build: Build
    const onWeb: bool  // built for the web (__EMSCRIPTEN__)

    var isOpen: bool
    var isVisible: bool
    var isFocused: bool
    var size: Vec2
    var window: Object
    var glContext: Object

    ghost var calls: seq<NativeCall>

    function State(): WindowState
      reads this
    {
      WindowState(isOpen, isVisible, isFocused, size)
    }

    /** A new window is open, visible and focused and holds two null
        handles. The source leaves its size uninitialised, so nothing is
        promised about it. */
    constructor (build: Build, onWeb: bool)
      ensures this.build == build && this.onWeb == onWeb
      ensures isOpen && isVisible && isFocused
      ensures window == MakeNullObject() && glContext == MakeNullObject()
      ensures calls == []
    {
      this.build := build;
      this.onWeb := onWeb;
      isOpen, isVisible, isFocused := true, true, true;
      size := Vec2(0, 0);
      window := MakeNullObject();
      glContext := MakeNullObject();
      calls := [];
    }

    /** create(title, size, flags). `windowHandle` and `contextHandle` are
        what SDL_CreateWindow and SDL_GL_CreateContext return and
        `lastError` what SDL_GetError() says if one is null; the
        RuntimeException thrown then is returned instead. `posted` are the
        window events (SHOWN, SIZE_CHANGED, ...) that SDL_CreateWindow
        queues when it makes a window; the scan for a RESIZED event sees
        them after what was already pending. */
    method Create(title: string, requested: Vec2, flags: U32, q: HostQueue,
                  windowHandle: Ptr, posted: seq<Event>, contextHandle: Ptr, lastError: string)
      returns (error: Option<RuntimeError>)
      modifies this, q
      ensures isOpen == old(isOpen) && isVisible == old(isVisible) && isFocused == old(isFocused)
      ensures size == StoredSize(build, requested)
      ensures error.Some? <==> windowHandle == Null || contextHandle == Null
      ensures error.Some? ==> error.value == RuntimeError(CreationMessage(build), lastError)
      // no native window: nothing after the creation attempt happens
      ensures windowHandle == Null ==>
        && window == old(window) && glContext == old(glContext)
        && q.pending == old(q.pending)
        && calls == old(calls) + [CreateWindow(title, NativeWidth(build, requested), ToI32(requested.y), flags)]
      // a native window: the queue was scanned and restored as far as SDL accepted
      ensures windowHandle != Null ==>
        && window == Object(windowHandle, DESTROY_WINDOW)
        && q.pending == EventQueue.Requeued(old(q.pending) + posted, q.pushAnswer)
        && calls == old(calls)
             + [CreateWindow(title, NativeWidth(build, requested), ToI32(requested.y), flags)]
             + ReleaseCalls(old(window))
             + InitialSizeCalls(requested, EventQueue.AnyOf(old(q.pending) + posted, IsExternalResize))
             + [ContextAttributes(!onWeb), CreateContext]
             + (if contextHandle == Null then []
                else ReleaseCalls(old(glContext)) + [LinkGL] + ConfigureCalls(size))
        && glContext == (if contextHandle == Null then old(glContext)
                         else Object(contextHandle, DELETE_CONTEXT))
    {
      error := CreateNativeWindow(title, requested, flags, q, windowHandle, posted, lastError);
      if error.Some? {
        return;
      }
      SetInitialWindowSize(requested, q);
      error := InitOpenGL(contextHandle, lastError);
      if error.Some? {
        return;
      }
      Configure();
    }

    /** The first step of create: remember the size, then makeObject over
        SDL_CreateWindow. A new handle replaces the old one, whose window is
        destroyed; the new window's events join the queue. */
    method CreateNativeWindow(title: string, requested: Vec2, flags: U32, q: HostQueue,
                              windowHandle: Ptr, posted: seq<Event>, lastError: string)
      returns (error: Option<RuntimeError>)
      modifies this`size, this`window, this`calls, q`pending
      ensures q.pending == old(q.pending) + (if windowHandle == Null then [] else posted)
      ensures size == StoredSize(build, requested)
      ensures error.Some? <==> windowHandle == Null
      ensures error.Some? ==> error.value == RuntimeError(CreationMessage(build), lastError)
      ensures window == if windowHandle == Null then old(window) else Object(windowHandle, DESTROY_WINDOW)
      ensures calls == old(calls)
        + [CreateWindow(title, NativeWidth(build, requested), ToI32(requested.y), flags)]
        + (if windowHandle == Null then [] else ReleaseCalls(old(window)))
    {
      size := StoredSize(build, requested);
      var width := if build == Engine then ToI32(size.x) else ToI32(ToU32(size.x + 1));
      calls := calls + [CreateWindow(title, width, ToI32(size.y), flags)];
      var made := MakeObject(build, windowHandle, DESTROY_WINDOW, lastError);
      if made.Err? {
        return Some(made.error);
      }
      q.pending := q.pending + posted;
      calls := calls + ReleaseCalls(window);
      window := made.value;
      error := None;
    }

    /** initOpenGL: context attributes (the 3.0 version only off the web),
        makeObject over SDL_GL_CreateContext, then linking the GL entry
        points. */
    method InitOpenGL(contextHandle: Ptr, lastError: string)
      returns (error: Option<RuntimeError>)
      modifies this`glContext, this`calls
      ensures error.Some? <==> contextHandle == Null
      ensures error.Some? ==> error.value == RuntimeError(CreationMessage(build), lastError)
      ensures glContext == if contextHandle == Null then old(glContext) else Object(contextHandle, DELETE_CONTEXT)
      ensures calls == old(calls) + [ContextAttributes(!onWeb), CreateContext]
        + (if contextHandle == Null then [] else ReleaseCalls(old(glContext)) + [LinkGL])
    {
      calls := calls + [ContextAttributes(!onWeb), CreateContext];
      var made := MakeObject(build, contextHandle, DELETE_CONTEXT, lastError);
      if made.Err? {
        return Some(made.error);
      }
      calls := calls + ReleaseCalls(glContext);
      glContext := made.value;
      calls := calls + [LinkGL];
      error := None;
    }

    /** setInitialWindowSize: asks the queue whether a RESIZED window event
        is pending and, only if none is, resizes and recentres. */
    method SetInitialWindowSize(requested: Vec2, q: HostQueue)
      modifies this`calls, q
      ensures q.pending == EventQueue.Requeued(old(q.pending), q.pushAnswer)
      ensures calls == old(calls)
        + InitialSizeCalls(requested, EventQueue.AnyOf(old(q.pending), IsExternalResize))
    {
      var resizedExternally, _ := EventQueue.Any(q, build, IsExternalResize);
      if !resizedExternally {
        calls := calls + [SetWindowSize(ToI32(requested.x), ToI32(requested.y)), CenterWindow];
      }
    }

    /** configure() */
    method Configure()
      modifies this`calls
      ensures calls == old(calls) + ConfigureCalls(size)
    {
      calls := calls + ConfigureCalls(size);
    }

    /** handleEvent(event): false for anything but a window event, which
        changes nothing; true for every window event, known or not. */
    method HandleEvent(e: Event) returns (handled: bool)
      modifies this
      ensures handled == IsWindowEvent(e)
      ensures State() == OnEvent(old(State()), e, onWeb)
      ensures calls == old(calls) + EventCalls(old(State()), e, onWeb)
      ensures window == old(window) && glContext == old(glContext)
    {
      if e.kind != SDL_WINDOWEVENT {
        return false;
      }
      if e.windowEvent == WINDOWEVENT_RESIZED || e.windowEvent == WINDOWEVENT_SIZE_CHANGED {
        size := Vec2(ToU32(e.data1), ToU32(e.data2));
        calls := calls + ConfigureViewport(size);
      } else if e.windowEvent == WINDOWEVENT_FOCUS_GAINED {
        isFocused := true;
      } else if e.windowEvent == WINDOWEVENT_FOCUS_LOST {
        isFocused := false;
      } else if e.windowEvent == WINDOWEVENT_SHOWN {
        isVisible := true;
      } else if e.windowEvent == WINDOWEVENT_HIDDEN {
        isVisible := false;
      } else if e.windowEvent == WINDOWEVENT_CLOSE {
        Close();
      }
      return true;
    }

    /** close(): off the web it also hides the window. */
    method Close()
      modifies this
      ensures State() == Closed(old(State()), onWeb)
      ensures calls == old(calls) + (if onWeb then [] else [HideWindow])
      ensures window == old(window) && glContext == old(glContext)
    {
      isOpen := false;
      if !onWeb {
        Hide();
      }
    }

    /** show(): SDL_ShowWindow, then visible. */
    method Show()
      modifies this`isVisible, this`calls
      ensures isVisible
      ensures calls == old(calls) + [ShowWindow]
    {
      calls := calls + [ShowWindow];
      isVisible := true;
    }

    /** hide(): SDL_HideWindow, then not visible. */
    method Hide()
      modifies this`isVisible, this`calls
      ensures !isVisible
      ensures calls == old(calls) + [HideWindow]
    {
      calls := calls + [HideWindow];
      isVisible := false;
    }

    /** swap(): SDL_GL_SwapWindow on the native window. */
    method Swap()
      requires build == Draft ==> window.ptr != Null  // the Draft copy asserts a window
      modifies this`calls
      ensures calls == old(calls) + [SwapWindow]
    {
      calls := calls + [SwapWindow];
    }

    method GetSize() returns (s: Vec2)
      ensures s == size
    {
      s := size;
    }

    method IsOpen() returns (b: bool)
      ensures b == isOpen
    {
      b := isOpen;
    }

    method IsVisible() returns (b: bool)
      ensures b == isVisible
    {
      b := isVisible;
    }

    method IsFocused() returns (b: bool)
      ensures b == isFocused
    {
      b := isFocused;
    }
  }

  // -----------------------------------------------------------------------
  // Properties of the event handling.

  /** A non-window event changes nothing and calls nothing. */
  lemma NonWindowEventIgnored(s: WindowState, e: Event, onWeb: bool)
    requires !IsWindowEvent(e)
    ensures OnEvent(s, e, onWeb) == s && EventCalls(s, e, onWeb) == []
  {
  }

  /** Any other window event (MOVED, EXPOSED, MINIMIZED, ENTER, ...) falls
      to the switch's default: no flag changes and no call is made. */
  lemma UnhandledWindowEventIgnored(s: WindowState, e: Event, onWeb: bool)
    requires IsWindowEvent(e) && !IsResize(e)
    requires e.windowEvent !in {WINDOWEVENT_FOCUS_GAINED, WINDOWEVENT_FOCUS_LOST,
                                WINDOWEVENT_SHOWN, WINDOWEVENT_HIDDEN, WINDOWEVENT_CLOSE}
    ensures OnEvent(s, e, onWeb) == s && EventCalls(s, e, onWeb) == []
  {
  }

  /** A RESIZED or SIZE_CHANGED event stores (data1, data2) as the size,
      keeps the flags, and makes exactly one viewport call, of that size. */
  lemma ResizeAppliesViewport(s: WindowState, e: Event, onWeb: bool)
    requires IsWindowEvent(e) && IsResize(e)
    ensures OnEvent(s, e, onWeb) == s.(size := Vec2(ToU32(e.data1), ToU32(e.data2)))
    ensures EventCalls(s, e, onWeb) == [Viewport(e.data1, e.data2)]
  {
    I32RoundTrip(e.data1);
    I32RoundTrip(e.data2);
  }

  /** Focus events touch only the focus flag, shown/hidden only the
      visibility flag. */
  lemma FlagEventsTouchOneFlag(s: WindowState, e: Event, onWeb: bool)
    requires IsWindowEvent(e)
    ensures e.windowEvent == WINDOWEVENT_FOCUS_GAINED ==> OnEvent(s, e, onWeb) == s.(isFocused := true)
    ensures e.windowEvent == WINDOWEVENT_FOCUS_LOST ==> OnEvent(s, e, onWeb) == s.(isFocused := false)
    ensures e.windowEvent == WINDOWEVENT_SHOWN ==> OnEvent(s, e, onWeb) == s.(isVisible := true)
    ensures e.windowEvent == WINDOWEVENT_HIDDEN ==> OnEvent(s, e, onWeb) == s.(isVisible := false)
  {
  }

  /** A close request leaves the window not open; off the web also not
      visible, on the web with its visibility as it was. */
  lemma CloseEventCloses(s: WindowState, e: Event, onWeb: bool)
    requires IsWindowEvent(e) && e.windowEvent == WINDOWEVENT_CLOSE
    ensures !OnEvent(s, e, onWeb).isOpen
    ensures OnEvent(s, e, onWeb).isVisible == (onWeb && s.isVisible)
    ensures OnEvent(s, e, onWeb).isFocused == s.isFocused && OnEvent(s, e, onWeb).size == s.size
  {
  }

  /** Handling the same event twice leaves the state as handling it once. */
  lemma OnEventIdempotent(s: WindowState, e: Event, onWeb: bool)
    ensures OnEvent(OnEvent(s, e, onWeb), e, onWeb) == OnEvent(s, e, onWeb)
  {
  }

  /** No event reopens a closed window. */
  lemma {:induction false} ClosedStaysClosed(s: WindowState, events: seq<Event>, onWeb: bool)
    requires !s.isOpen
    ensures !OnEvents(s, events, onWeb).isOpen
    decreases |events|
  {
    if events != [] {
      ClosedStaysClosed(s, events[..|events| - 1], onWeb);
    }
  }

  /** Once a close request has been handled, the window is not open after
      any later events. */
  lemma {:induction false} CloseIsFinal(s: WindowState, events: seq<Event>, k: nat, onWeb: bool)
    requires k < |events| && IsWindowEvent(events[k]) && events[k].windowEvent == WINDOWEVENT_CLOSE
    ensures !OnEvents(s, events, onWeb).isOpen
    decreases |events|
  {
    var prefix := events[..|events| - 1];
    if k == |events| - 1 {
      CloseEventCloses(OnEvents(s, prefix, onWeb), events[k], onWeb);
    } else {
      assert prefix[k] == events[k];
      CloseIsFinal(s, prefix, k, onWeb);
    }
  }
}
