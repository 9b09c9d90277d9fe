/** The resource provider: a list of files still to be prepared and a
    `complete` flag. Preparing a file ends in onSuccess or onError, which
    drop every entry for that file. Natively, preparing a file is checking
    that it exists; whether a path exists is an input. */
module ResourceProvider {
  import opened Common

  /** std::list::remove(x): every element equal to x goes, the others stay
      in their order. */
  function RemoveAll(s: seq<string>, x: string): (r: seq<string>)
    ensures x !in r
    ensures forall y :: y != x ==> multiset(r)[y] == multiset(s)[y]
    ensures |r| <= |s|
    decreases |s|
  {
    if s == [] then []
    else
      var p := s[..|s| - 1];
      var last := s[|s| - 1];
      assert s == p + [last];
      if last == x then RemoveAll(p, x) else RemoveAll(p, x) + [last]
  }

  /** What is left keeps its order. */
  lemma {:induction false} RemoveAllIsSubsequence(s: seq<string>, x: string)
    ensures IsSubsequence(RemoveAll(s, x), s)
    decreases |s|
  {
    if s != [] {
      var p := s[..|s| - 1];
      var last := s[|s| - 1];
      RemoveAllIsSubsequence(p, x);
      SubsequenceExtend(RemoveAll(p, x), p, last);
      assert p + [last] == s;
    }
  }

  /** Removing an absent file changes nothing. */
  lemma {:induction false} RemoveAbsent(s: seq<string>, x: string)
    requires x !in s
    ensures RemoveAll(s, x) == s
    decreases |s|
  {
    if s != [] {
      var p := s[..|s| - 1];
      assert x !in p by {
        assert forall k :: 0 <= k < |p| ==> p[k] == s[k];
      }
      RemoveAbsent(p, x);
      assert p + [s[|s| - 1]] == s;
    }
  }

  /** Removing twice is removing once. */
  lemma RemoveIdempotent(s: seq<string>, x: string)
    ensures RemoveAll(RemoveAll(s, x), x) == RemoveAll(s, x)
  {
    RemoveAbsent(RemoveAll(s, x), x);
  }

  /** Removal never brings in a file that was not there. */
  lemma RemoveAllShrinks(s: seq<string>, x: string)
    ensures forall y :: y in RemoveAll(s, x) ==> y in s
  {
    RemoveAllIsSubsequence(s, x);
    SubsequenceShorter(RemoveAll(s, x), s);
  }

  /** Removing each of `xs` in turn. */
  function RemoveEach(s: seq<string>, xs: seq<string>): seq<string>
    decreases |xs|
  {
    if xs == [] then s else RemoveAll(RemoveEach(s, xs[..|xs| - 1]), xs[|xs| - 1])
  }

  /** After removing each of `xs`, none of them is left, and nothing that was
      not in `s` has appeared. */
  lemma {:induction false} RemoveEachRemoves(s: seq<string>, xs: seq<string>)
    ensures forall y :: y in xs ==> y !in RemoveEach(s, xs)
    ensures forall y :: y in RemoveEach(s, xs) ==> y in s
    decreases |xs|
  {
    if xs != [] {
      var p := xs[..|xs| - 1];
      RemoveEachRemoves(s, p);
      RemoveAllShrinks(RemoveEach(s, p), xs[|xs| - 1]);
      assert xs == p + [xs[|xs| - 1]];
    }
  }

  /** Removing every file of a list empties it. */
  lemma RemoveEachOfItself(s: seq<string>)
    ensures RemoveEach(s, s) == []
  {
    RemoveEachRemoves(s, s);
    var r := RemoveEach(s, s);
    assert r == [] || First(r) in r;
  }

  /** One more step of removing each file of `xs`'s first i. */
  lemma RemoveEachStep(s: seq<string>, xs: seq<string>, i: nat)
    requires i < |xs|
    ensures xs[..i + 1] == xs[..i] + [xs[i]]
    ensures RemoveEach(s, xs[..i + 1]) == RemoveAll(RemoveEach(s, xs[..i]), xs[i])
  {
    assert xs[..i + 1][..i] == xs[..i];
  }

  lemma AppendAssoc(a: seq<string>, b: seq<string>, x: string)
    ensures (a + b) + [x] == a + (b + [x])
  {
  }

  /** The first file of a list, or the empty path for an empty list. */
  function First(s: seq<string>): (f: string)
    ensures s != [] ==> f in s
  {
    if s == [] then "" else s[0]
  }

  class ResourceProvider {
    var complete: bool
    var files: seq<string>
    /** The paths handed to prepareFile, in order. */
    ghost var requested: seq<string>

    constructor ()
      ensures !complete && files == [] && requested == []
    {
      complete := false;
      files := [];
      requested := [];
    }

    /** add(file): queued at the end, and no longer complete. */
    method Add(file: string)
      modifies this`files, this`complete
      ensures files == old(files) + [file] && !complete
    {
      files := files + [file];
      complete := false;
    }

    /** onSuccess(file): complete once nothing is left. */
    method OnSuccess(file: string)
      modifies this`files, this`complete
      ensures files == RemoveAll(old(files), file)
      ensures complete <==> files == []
    {
      files := RemoveAll(files, file);
      complete := |files| == 0;
    }

    /** onError(file): not complete, whatever is left. */
    method OnError(file: string)
      modifies this`files, this`complete
      ensures files == RemoveAll(old(files), file)
      ensures !complete
    {
      files := RemoveAll(files, file);
      complete := false;
    }

    /** prepareFile(file), native build: the path is requested and, as it
        exists or not, answered with onSuccess or onError. */
    method PrepareFile(file: string, found: bool)
      modifies this
      ensures requested == old(requested) + [file]
      ensures files == RemoveAll(old(files), file)
      ensures complete == (found && files == [])
    {
      requested := requested + [file];
      if found {
        OnSuccess(file);
      } else {
        OnError(file);
      }
    }

    /** prepare(), native build: each file of a copy of the list, duplicates
        included, is checked with `fileExists` and answered with onSuccess or
        onError at once. The callbacks shrink the list, not the copy. */
    method Prepare(fileExists: string -> bool)
      modifies this
      ensures requested == old(requested) + old(files)
      ensures files == []
      ensures old(files) == [] ==> complete == old(complete)
      ensures old(files) != [] ==> complete == fileExists(old(files)[|old(files)| - 1])
    {
      var cache := files;
      var i := 0;
      while i < |cache|
        invariant 0 <= i <= |cache|
        invariant files == RemoveEach(cache, cache[..i])
        invariant requested == old(requested) + cache[..i]
        invariant i == 0 ==> complete == old(complete)
        invariant i > 0 ==> complete == (fileExists(cache[i - 1]) && files == [])
      {
        RemoveEachStep(cache, cache, i);
        AppendAssoc(old(requested), cache[..i], cache[i]);
        PrepareFile(cache[i], fileExists(cache[i]));
        i := i + 1;
      }
      assert cache[..i] == cache;
      RemoveEachOfItself(cache);
    }
  }
}
