/** The text of a GL error message, assembled the way the exception's
    constructor does it, with the sequence facts needed to take it apart. */
module OpenGLText {
  import opened Common

  /** The message prefix: "GL error " in the Engine copy, "OpenGL error "
      in the Draft copy. */
  function Prefix(build: Build): string {
    match build
    case Engine => "GL error "
    case Draft => "OpenGL error "
  }

  lemma ConcatEnds(p: string, r: string, k: nat)
    requires k <= |r|
    ensures (p + r)[..|p|] == p && (p + r)[|p|..] == r
    ensures (p + r)[|p + r| - k..] == r[|r| - k..]
  {
    assert (p + r)[|p + r| - k..] == (p + r)[|p|..][|r| - k..];
  }

  /** The part of the message after the error code: the description in
      backquotes, the place, and the call suffix. */
  function Tail(file: string, line: I32, call: string, errorDescription: string): string {
    var place := " `" + errorDescription + "` @ " + file + ":" + IntToString(line);
    if |call| > 0 then place + (" - `" + call + "`") else place
  }

  /** The tail starts with a space and ends with " - `call`" when a call
      text is given, with the line number (ending in a digit) otherwise. */
  lemma TailShape(file: string, line: I32, call: string, errorDescription: string)
    ensures var t := Tail(file, line, call, errorDescription);
      |t| > 0 && t[0] == ' '
    ensures var t := Tail(file, line, call, errorDescription);
      |call| > 0 ==>
        var sfx := " - `" + call + "`";
        |sfx| <= |t| && t[|t| - |sfx|..] == sfx
    ensures var t := Tail(file, line, call, errorDescription);
      |call| == 0 ==>
        var l := IntToString(line);
        |l| <= |t| && t[|t| - |l|..] == l && IsDigit(t[|t| - 1])
  {
    var l := IntToString(line);
    var place := " `" + errorDescription + "` @ " + file + ":" + l;
    ConcatEnds(" `" + errorDescription + "` @ " + file + ":", l, |l|);
    LastOfSuffix(place, l);
    IntToStringEndsWithDigit(line);
    ConcatEnds(place, " - `" + call + "`", |call| + 5);
  }

  /** The message built by the exception's constructor: the prefix, the
      error code, then the tail. Its `line` is the constructor's int
      parameter, so the text shows it signed. */
  function Message(build: Build, file: string, line: I32, call: string,
                   errorCode: I32, errorDescription: string): (m: string)
    ensures |Prefix(build)| < |m| && m[..|Prefix(build)|] == Prefix(build)
  {
    Prefix(build) + (IntToString(errorCode) + Tail(file, line, call, errorDescription))
  }

  lemma EndsWith(p: string, c: string, t: string, k: nat)
    requires k <= |t|
    ensures k <= |p + (c + t)| && (p + (c + t))[|p + (c + t)| - k..] == t[|t| - k..]
  {
    ConcatEnds(c, t, k);
    ConcatEnds(p, c + t, k);
  }

  lemma EndsWithSuffix(m: string, p: string, c: string, t: string, sfx: string)
    requires m == p + (c + t)
    requires 0 < |sfx| <= |t| && t[|t| - |sfx|..] == sfx
    ensures |sfx| <= |m| && m[|m| - |sfx|..] == sfx && m[|m| - 1] == sfx[|sfx| - 1]
  {
    EndsWith(p, c, t, |sfx|);
    LastOfSuffix(m, sfx);
  }

  lemma LastOfSuffix(m: string, sfx: string)
    requires 0 < |sfx| <= |m| && m[|m| - |sfx|..] == sfx
    ensures m[|m| - 1] == sfx[|sfx| - 1]
  {
    assert m[|m| - 1] == m[|m| - |sfx|..][|sfx| - 1];
  }
}

/** GL error checking: the description of an error code, the exception
    raised for a non-zero code and its message text, and the `GL(...)` and
    `GL_CHECK()` macros. The error codes are those of section 2.5 (GL
    Errors, Table 2.3) of the OpenGL ES 3.0 specification. The value
    glGetError returns is an input. */
module OpenGL {
  import opened Common
  import opened OpenGLText

  const GL_NO_ERROR: U32 := 0
  const GL_INVALID_ENUM: U32 := 0x0500
  const GL_INVALID_VALUE: U32 := 0x0501
  const GL_INVALID_OPERATION: U32 := 0x0502
  const GL_OUT_OF_MEMORY: U32 := 0x0505
  const GL_INVALID_FRAMEBUFFER_OPERATION: U32 := 0x0506

  const UNKNOWN_ERROR: string := "Unknown error"

  predicate IsStandardError(code: U32) {
    code == GL_INVALID_ENUM || code == GL_INVALID_VALUE || code == GL_INVALID_OPERATION
    || code == GL_OUT_OF_MEMORY || code == GL_INVALID_FRAMEBUFFER_OPERATION
  }

  /** checkError's switch: a fixed text for each of the five error codes,
      "Unknown error" for anything else. */
  function Describe(code: U32): (d: string)
    ensures d == UNKNOWN_ERROR <==> !IsStandardError(code)
  {
    if code == GL_INVALID_ENUM then "Invalid enum"
    else if code == GL_INVALID_VALUE then "Invalid value"
    else if code == GL_INVALID_OPERATION then "Invalid operation"
    else if code == GL_OUT_OF_MEMORY then "Out of memory"
    else if code == GL_INVALID_FRAMEBUFFER_OPERATION then "Invalid framebuffer operation"
    else UNKNOWN_ERROR
  }

  /** The description tells the five errors apart. */
  lemma DescriptionsDistinct(a: U32, b: U32)
    requires IsStandardError(a) && IsStandardError(b) && a != b
    ensures Describe(a) != Describe(b)
  {
  }

  /** A non-empty call text ends the message as " - `call`". */
  lemma MessageEndsWithCall(build: Build, file: string, line: I32, call: string,
                            errorCode: I32, errorDescription: string)
    requires |call| > 0
    ensures var m := Message(build, file, line, call, errorCode, errorDescription);
            var sfx := " - `" + call + "`";
      |sfx| <= |m| && m[|m| - |sfx|..] == sfx && m[|m| - 1] == '`'
  {
    var sfx := " - `" + call + "`";
    assert sfx[|sfx| - 1] == '`';
    TailShape(file, line, call, errorDescription);
    TailCarriesSuffix(build, file, line, call, errorCode, errorDescription, sfx);
  }

  /** Whatever the tail ends with, the message ends with too. */
  lemma TailCarriesSuffix(build: Build, file: string, line: I32, call: string,
                          errorCode: I32, errorDescription: string, sfx: string)
    requires 0 < |sfx|
    requires var t := Tail(file, line, call, errorDescription);
      |sfx| <= |t| && t[|t| - |sfx|..] == sfx
    ensures var m := Message(build, file, line, call, errorCode, errorDescription);
      |sfx| <= |m| && m[|m| - |sfx|..] == sfx && m[|m| - 1] == sfx[|sfx| - 1]
  {
    EndsWithSuffix(Message(build, file, line, call, errorCode, errorDescription),
                   Prefix(build), IntToString(errorCode), Tail(file, line, call, errorDescription), sfx);
  }

  /** Without a call text the message ends with the line number, so with
      a digit. */
  lemma MessageEndsWithLine(build: Build, file: string, line: I32, call: string,
                            errorCode: I32, errorDescription: string)
    requires |call| == 0
    ensures var m := Message(build, file, line, call, errorCode, errorDescription);
      var l := IntToString(line);
      |l| <= |m| && m[|m| - |l|..] == l && IsDigit(m[|m| - 1])
  {
    TailShape(file, line, call, errorDescription);
    TailCarriesSuffix(build, file, line, call, errorCode, errorDescription, IntToString(line));
  }

  /** So the message ends with a backquote exactly when a call text was
      given. */
  lemma MessageShowsCallIff(build: Build, file: string, line: I32, call: string,
                            errorCode: I32, errorDescription: string)
    ensures var m := Message(build, file, line, call, errorCode, errorDescription);
      m[|m| - 1] == '`' <==> |call| > 0
  {
    if |call| > 0 {
      MessageEndsWithCall(build, file, line, call, errorCode, errorDescription);
    } else {
      MessageEndsWithLine(build, file, line, call, errorCode, errorDescription);
    }
  }

  /** OpenglException's fields. `line` is an unsigned int member. */
  datatype OpenglException = OpenglException(
    file: string, line: U32, call: string,
    errorCode: I32, errorDescription: string, message: string)
  {
    /** what(): the message. */
    function What(): (w: string)
      ensures w == message
    {
      message
    }
  }

  /** The exception's constructor: the arguments are kept as given, the
      line converted to unsigned int, and the message composed from them. */
  function NewException(build: Build, file: string, line: I32, call: string,
                        errorCode: I32, errorDescription: string): (e: OpenglException)
    ensures e.file == file && e.call == call && e.errorCode == errorCode
    ensures e.errorDescription == errorDescription
    ensures line >= 0 ==> e.line == line
    ensures line < 0 ==> e.line == line + TWO_32
    ensures e.What() == Message(build, file, line, call, errorCode, errorDescription)
  {
    OpenglException(file, ToU32(line), call, errorCode, errorDescription,
                    Message(build, file, line, call, errorCode, errorDescription))
  }

  /** The error code is read back from the text right after the prefix. */
  lemma MessageRecoversCode(build: Build, file: string, line: I32, call: string,
                            errorCode: I32, errorDescription: string)
    ensures var m := Message(build, file, line, call, errorCode, errorDescription);
      LeadingInt(m[|Prefix(build)|..]) == errorCode
  {
    var rest := Tail(file, line, call, errorDescription);
    var m := Message(build, file, line, call, errorCode, errorDescription);
    assert m == Prefix(build) + (IntToString(errorCode) + rest);
    assert m[|Prefix(build)|..] == IntToString(errorCode) + rest;
    TailShape(file, line, call, errorDescription);
    IntToStringRoundTrip(errorCode, rest);
  }

  /** The two copies' messages differ only in their prefix. */
  lemma MessagesDifferOnlyInPrefix(file: string, line: I32, call: string,
                                   errorCode: I32, errorDescription: string)
    ensures var e := Message(Engine, file, line, call, errorCode, errorDescription);
            var d := Message(Draft, file, line, call, errorCode, errorDescription);
      e[|Prefix(Engine)|..] == d[|Prefix(Draft)|..] && e != d
  {
    var body := IntToString(errorCode) + Tail(file, line, call, errorDescription);
    var e := Message(Engine, file, line, call, errorCode, errorDescription);
    var d := Message(Draft, file, line, call, errorCode, errorDescription);
    assert e == Prefix(Engine) + body;
    assert d == Prefix(Draft) + body;
    assert e[0] != d[0];
  }

  /** A null call text (nullptr) becomes the empty string. */
  function CallText(call: Option<string>): string {
    if call.Some? then call.value else ""
  }

  /** checkError(file, line, call) given the value glGetError returned:
      Ok(false) when there is no error, otherwise the exception it throws.
      GLenum is unsigned; the exception's errorCode is its int conversion. */
  function CheckError(build: Build, file: string, line: I32, call: Option<string>,
                      glError: U32): (r: Result<bool, OpenglException>)
    ensures r != Ok(true)
    ensures r == Ok(false) <==> glError == GL_NO_ERROR
    ensures r.Err? ==>
      && r.error.file == file && r.error.line == ToU32(line)
      && r.error.call == CallText(call)
      && r.error.errorCode == ToI32(glError)
      && r.error.errorDescription == Describe(glError)
      && (IsStandardError(glError) <==> r.error.errorDescription != UNKNOWN_ERROR)
      && r.error.What() == Message(build, file, line, CallText(call), ToI32(glError), Describe(glError))
  {
    if glError == GL_NO_ERROR then Ok(false)
    else Err(NewException(build, file, line, CallText(call), ToI32(glError), Describe(glError)))
  }

  /** The error flag read back from the exception: a standard code fits an
      int, so the stored code is the code itself. */
  lemma CheckErrorKeepsStandardCode(build: Build, file: string, line: I32,
                                    call: Option<string>, glError: U32)
    requires IsStandardError(glError)
    ensures CheckError(build, file, line, call, glError).Err?
    ensures CheckError(build, file, line, call, glError).error.errorCode == glError
  {
    var r := CheckError(build, file, line, call, glError);
    assert r.error.errorCode == ToI32(glError);
    StandardCodeFitsInt(glError);
  }

  lemma StandardCodeFitsInt(code: U32)
    requires IsStandardError(code)
    ensures ToI32(code) == code
  {
  }

  /** The two macro forms: `GL(call)` and `GL_CHECK()`. */
  datatype MacroUse = Gl(callText: string) | GlCheck

  /** What an expanded macro does, in order. */
  datatype GlStep = RunCall(callText: string) | ReadErrorFlag

  /** The text checkError receives: the stringified call, or "GL_CHECK()". */
  function CheckText(use: MacroUse): string {
    match use
    case Gl(text) => text
    case GlCheck => "GL_CHECK()"
  }

  /** One expansion of the macro. With `checks` (DEBUG and DEBUG_OPENGL
      defined) it is the call, if any, then `do {} while (checkError(...))`;
      otherwise only the call. `errorFlag(k)` is what the k-th glGetError
      returns. The exception, if thrown, is returned. */
  method Expand(build: Build, checks: bool, use: MacroUse, file: string, line: I32,
                errorFlag: nat -> U32)
    returns (steps: seq<GlStep>, thrown: Option<OpenglException>)
    ensures steps == (if use.Gl? then [RunCall(use.callText)] else [])
                     + (if checks then [ReadErrorFlag] else [])
    ensures !checks ==> thrown == None
    ensures checks ==>
      (thrown == None <==> errorFlag(0) == GL_NO_ERROR)
    ensures checks && thrown.Some? ==>
      CheckError(build, file, line, Some(CheckText(use)), errorFlag(0)) == Err(thrown.value)
  {
    steps := if use.Gl? then [RunCall(use.callText)] else [];
    thrown := None;
    if !checks {
      return;
    }
    var readCount: nat := 0;
    var again := true;
    while again
      invariant again ==> readCount == 0
      invariant !again ==> readCount == 1 && thrown == None && errorFlag(0) == GL_NO_ERROR
      invariant steps == (if use.Gl? then [RunCall(use.callText)] else [])
                         + seq(readCount, _ => ReadErrorFlag)
      decreases 1 - readCount
    {
      var checked := CheckError(build, file, line, Some(CheckText(use)), errorFlag(readCount));
      steps := steps + [ReadErrorFlag];
      readCount := readCount + 1;
      if checked.Err? {
        thrown := Some(checked.error);
        return;
      }
      again := checked.value;
    }
  }
}
