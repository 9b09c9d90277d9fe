/** The engine's RuntimeException: a std::runtime_error whose text joins a
    message and its details with " - ". The Engine copy also writes that text
    to standard output when constructed; the Draft copy does not. Output is
    not modelled, so both copies are this one datatype. */
module RuntimeException {

  const SEPARATOR: string := " - "

  datatype RuntimeError = RuntimeError(message: string, details: string) {

    /** what(): the message, the separator, then the details. */
    function What(): (w: string)
      ensures |w| == |message| + |SEPARATOR| + |details|
      ensures w[..|message|] == message
      ensures w[|message|..|message| + |SEPARATOR|] == SEPARATOR
      ensures w[|w| - |details|..] == details
    {
      message + SEPARATOR + details
    }
  }

  /** Undoes What when the length of the message is known. */
  function Split(w: string, messageLength: nat): (r: RuntimeError)
    requires messageLength + |SEPARATOR| <= |w|
  {
    RuntimeError(w[..messageLength], w[messageLength + |SEPARATOR|..])
  }

  lemma SplitWhat(e: RuntimeError)
    ensures Split(e.What(), |e.message|) == e
  {
  }

  /** Two errors with equally long messages have the same text only if they
      are the same error. */
  lemma WhatInjective(a: RuntimeError, b: RuntimeError)
    requires |a.message| == |b.message|
    requires a.What() == b.What()
    ensures a == b
  {
    SplitWhat(a);
    SplitWhat(b);
  }
}
