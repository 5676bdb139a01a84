// The single-file HTTP store: download into a temporary file, rename it into
// place, and never download again. Every network and file operation may fail,
// and the process may die between any two of them. One process uses the cache
// directory at a time.
module Download {
  import opened Prelude
  import Store

  type Bytes = seq<byte>

  // The files of the cache directory.
  type Directory = map<string, Bytes>

  // How one attempt goes: how far it gets, and whether it reports an error or
  // dies there. `left` is what a failed write leaves in the temporary file.
  datatype Try =
    | RequestFailed(reason: string)
    | WriteFailed(body: Bytes, left: Option<Bytes>, reason: string)
    | RenameFailed(body: Bytes, reason: string)
    | Stored(body: Bytes)
    | DiedRequesting
    | DiedWriting(body: Bytes, left: Option<Bytes>)
    | DiedWritten(body: Bytes)
    | DiedStored(body: Bytes)

  datatype TryEnd = Saved | Failed(reason: string) | Died

  datatype FetchEnd = Fetched(content: Bytes) | NotServed | Unusable(reason: string) | Crashed

  // One call of `fetch`: the name asked for, whether the cache directory can be
  // prepared and, on a miss, the client built, and how the attempts would go.
  datatype Call = Call(name: string, setupError: Option<string>, clientError: Option<string>, tries: nat -> Try)

  function Dest(expected: string): string { expected + ".wasm" }

  // `with_extension("download")`.
  function Temp(expected: string): string { Store.Stem(Dest(expected)) + ".download" }

  lemma {:induction false} TempIsNotDest(expected: string)
    ensures Temp(expected) != Dest(expected)
  {
    assert Temp(expected)[|Temp(expected)| - 1] == 'd' && Dest(expected)[|Dest(expected)| - 1] == 'm';
  }

  lemma {:induction false} TempName(expected: string)
    requires expected != ""
    ensures Temp(expected) == expected + ".download"
  {
    var dest := Dest(expected);
    assert dest[|expected|] == '.' && dest[|expected| + 1..] == "wasm";
    assert forall i :: |expected| < i < |dest| ==> dest[i] == "wasm"[i - |expected| - 1];
    assert Store.LastDot(dest) == |expected|;
    assert dest[..|expected|] == expected;
  }

  function Written(dir: Directory, temp: string, left: Option<Bytes>): Directory {
    match left case None => dir case Some(bytes) => dir[temp := bytes]
  }

  function Renamed(dir: Directory, temp: string, dest: string): Directory
    requires temp in dir
  {
    (dir - {temp})[dest := dir[temp]]
  }

  // What an attempt leaves in the directory.
  function TryOnce(dir: Directory, temp: string, dest: string, t: Try): Directory {
    match t
    case RequestFailed(_) => dir
    case DiedRequesting => dir
    case WriteFailed(_, left, _) => Written(dir, temp, left)
    case DiedWriting(_, left) => Written(dir, temp, left)
    case RenameFailed(body, _) => dir[temp := body]
    case DiedWritten(body) => dir[temp := body]
    case Stored(body) => Renamed(dir[temp := body], temp, dest)
    case DiedStored(body) => Renamed(dir[temp := body], temp, dest)
  }

  function EndOf(t: Try): TryEnd {
    match t
    case Stored(_) => Saved
    case RequestFailed(reason) => Failed(reason)
    case WriteFailed(_, _, reason) => Failed(reason)
    case RenameFailed(_, reason) => Failed(reason)
    case _ => Died
  }

  const ATTEMPTS: nat := 3

  // From the i-th attempt on (counting from zero): directory, end, requests.
  function Attempts(dir: Directory, temp: string, dest: string, tries: nat -> Try,
                    i: nat): (r: (Directory, TryEnd, nat))
    requires i < ATTEMPTS
    ensures r.1.Saved? ==> dest in r.0
    decreases ATTEMPTS - i
  {
    var after, end := TryOnce(dir, temp, dest, tries(i)), EndOf(tries(i));
    if end.Failed? && i + 1 < ATTEMPTS then
      var (last, lastEnd, requests) := Attempts(after, temp, dest, tries, i + 1);
      (last, lastEnd, requests + 1)
    else (after, end, 1)
  }

  function Fetch(dir: Directory, expected: string, call: Call): (Directory, FetchEnd, nat) {
    var dest, temp := Dest(expected), Temp(expected);
    if call.name != expected then (dir, NotServed, 0)
    else if call.setupError.Some? then (dir, Unusable(call.setupError.value), 0)
    else if dest in dir then (dir, Fetched(dir[dest]), 0)
    else if call.clientError.Some? then (dir, Unusable(call.clientError.value), 0)
    else
      var (after, end, requests) := Attempts(dir, temp, dest, call.tries, 0);
      match end
      case Saved => (after, Fetched(after[dest]), requests)
      case Failed(reason) => (after, Unusable(reason), requests)
      case Died => (after, Crashed, requests)
  }

  // The complete body of a response that was received successfully.
  function Body(t: Try): Option<Bytes> {
    if t.RequestFailed? || t.DiedRequesting? then None else Some(t.body)
  }

  // ----- One call -----

  lemma {:induction false} AttemptsAre(dir: Directory, expected: string, tries: nat -> Try, i: nat)
    requires i < ATTEMPTS && Dest(expected) !in dir
    ensures
      var dest := Dest(expected);
      var (after, end, n) := Attempts(dir, Temp(expected), dest, tries, i);
      && 1 <= n <= ATTEMPTS - i
      && (forall j :: i <= j < i + n - 1 ==> EndOf(tries(j)).Failed?)
      && end == EndOf(tries(i + n - 1))
      && (end.Failed? ==> n == ATTEMPTS - i && dest !in after)
      && (dest in after ==> Body(tries(i + n - 1)) == Some(after[dest]))
      && SameElsewhere(dir, after, expected)
    decreases ATTEMPTS - i
  {
    OneTry(dir, expected, tries(i));
    if EndOf(tries(i)).Failed? && i + 1 < ATTEMPTS {
      AttemptsAre(TryOnce(dir, Temp(expected), Dest(expected), tries(i)), expected, tries, i + 1);
    }
  }

  lemma {:induction false} OneTry(dir: Directory, expected: string, t: Try)
    requires Dest(expected) !in dir
    ensures
      var dest := Dest(expected);
      var after := TryOnce(dir, Temp(expected), dest, t);
      && (EndOf(t).Failed? ==> dest !in after)
      && (EndOf(t).Saved? ==> dest in after)
      && (dest in after ==> Body(t) == Some(after[dest]))
      && SameElsewhere(dir, after, expected)
  {
    TempIsNotDest(expected);
  }

  // Only the temporary file and the cached file may differ.
  ghost predicate SameElsewhere(dir: Directory, after: Directory, expected: string) {
    forall f :: f != Temp(expected) && f != Dest(expected) ==>
      (f in after <==> f in dir) && (f in dir ==> after[f] == dir[f])
  }

  // The attempt reported an error; the loop goes on unless it was the third.
  predicate ReportsError(t: Try) {
    t.RequestFailed? || t.WriteFailed? || t.RenameFailed?
  }

  // The last attempt made: the first that reports no error, or the third.
  function LastMade(tries: nat -> Try): nat {
    if !ReportsError(tries(0)) then 0 else if !ReportsError(tries(1)) then 1 else 2
  }

  // The content a call gives, if it does: what is cached, or the body stored by
  // the last attempt made.
  ghost predicate Serves(dir: Directory, expected: string, call: Call, content: Bytes) {
    && call.name == expected && call.setupError.None?
    && if expected + ".wasm" in dir then content == dir[expected + ".wasm"]
       else call.clientError.None? && call.tries(LastMade(call.tries)) == Stored(content)
  }

  // How a call ends, in terms of what was asked and what went wrong.
  lemma {:induction false} FetchEnds(dir: Directory, expected: string, call: Call)
    ensures forall content :: Fetch(dir, expected, call).1 == Fetched(content) <==> Serves(dir, expected, call, content)
    ensures Fetch(dir, expected, call).1 == NotServed <==> call.name != expected
    ensures call.name == expected && call.setupError.Some? ==>
              Fetch(dir, expected, call).1 == Unusable(call.setupError.value)
    ensures
      var asked := call.name == expected && call.setupError.None? && expected + ".wasm" !in dir;
      && (asked && call.clientError.Some? ==> Fetch(dir, expected, call).1 == Unusable(call.clientError.value))
      && (asked && call.clientError.None? ==>
            var last := LastMade(call.tries);
            && Fetch(dir, expected, call).2 == last + 1
            && (ReportsError(call.tries(last)) ==> Fetch(dir, expected, call).1 == Unusable(call.tries(last).reason))
            && (!ReportsError(call.tries(last)) && !call.tries(last).Stored? ==>
                  Fetch(dir, expected, call).1 == Crashed))
      && (!asked || call.clientError.Some? ==> Fetch(dir, expected, call).2 == 0)
  {
    if call.name == expected && call.setupError.None? && Dest(expected) !in dir && call.clientError.None? {
      AttemptsEnd(dir, expected, call.tries);
    }
  }

  lemma {:induction false} AttemptsEnd(dir: Directory, expected: string, tries: nat -> Try)
    requires Dest(expected) !in dir
    ensures
      var (after, end, n) := Attempts(dir, Temp(expected), Dest(expected), tries, 0);
      var last := LastMade(tries);
      && n == last + 1 && end == EndOf(tries(last))
      && (tries(last).Stored? ==> Dest(expected) in after && after[Dest(expected)] == tries(last).body)
  {
    AttemptsAre(dir, expected, tries, 0);
    var n := Attempts(dir, Temp(expected), Dest(expected), tries, 0).2;
    assert EndOf(tries(n - 1)) == Attempts(dir, Temp(expected), Dest(expected), tries, 0).1;
    assert forall j :: 0 <= j < n - 1 ==> ReportsError(tries(j));
  }

  // A hit makes no request and changes nothing. A miss makes one to three, and
  // all but the last failed; if the third fails too, its error is the result.
  // A result is the cached content, and what is cached is the whole body of
  // the last response. No other file is touched.
  lemma {:induction false} OneFetch(dir: Directory, expected: string, call: Call)
    ensures
      var dest := Dest(expected);
      var (after, end, requests) := Fetch(dir, expected, call);
      && (dest in dir ==> after == dir && requests == 0 && (end.Fetched? ==> end.content == dir[dest]))
      && (end.Fetched? ==> dest in after && end.content == after[dest])
      && (requests == 0 ==> after == dir && !end.Crashed?)
      && requests <= 3
      && (requests > 0 ==>
            && call.name == expected && call.setupError.None? && call.clientError.None? && dest !in dir
            && (forall j :: 0 <= j < requests - 1 ==> EndOf(call.tries(j)).Failed?)
            && (end.Unusable? <==> EndOf(call.tries(requests - 1)).Failed?)
            && (end.Unusable? ==> requests == 3 && end.reason == EndOf(call.tries(2)).reason)
            && (dest in after ==> Body(call.tries(requests - 1)) == Some(after[dest])))
      && SameElsewhere(dir, after, expected)
  {
    if Dest(expected) !in dir {
      AttemptsAre(dir, expected, call.tries, 0);
    }
  }

  // ----- Any history of calls -----

  // The directory after a history of calls, from any start: a temporary file of
  // an earlier process may be there.
  function After(start: Directory, expected: string, calls: seq<Call>): Directory {
    if calls == [] then start
    else Fetch(After(start, expected, calls[..|calls| - 1]), expected, calls[|calls| - 1]).0
  }

  // How many requests the i-th call makes.
  function RequestsOf(start: Directory, expected: string, calls: seq<Call>, i: nat): nat
    requires i < |calls|
  {
    Fetch(After(start, expected, calls[..i]), expected, calls[i]).2
  }

  // The content is the complete body of the response to a request that was made.
  ghost predicate WasServed(start: Directory, expected: string, calls: seq<Call>, content: Bytes) {
    exists i, j: nat {:trigger calls[i].tries(j)} ::
      0 <= i < |calls| && j < RequestsOf(start, expected, calls, i) && Body(calls[i].tries(j)) == Some(content)
  }

  // Unless the file was there from the start, what is cached is the complete
  // body of one successful response to a request made in this history.
  lemma {:induction false} CachedIsOneCompleteBody(start: Directory, expected: string, calls: seq<Call>)
    requires Dest(expected) !in start && Dest(expected) in After(start, expected, calls)
    ensures WasServed(start, expected, calls, After(start, expected, calls)[Dest(expected)])
  {
    var n := |calls| - 1;
    var before := After(start, expected, calls[..n]);
    OneFetch(before, expected, calls[n]);
    if Dest(expected) in before {
      CachedIsOneCompleteBody(start, expected, calls[..n]);
      ServedLasts(start, expected, calls, n, before[Dest(expected)]);
    } else {
      var j := RequestsOf(start, expected, calls, n) - 1;
      assert Body(calls[n].tries(j)) == Some(After(start, expected, calls)[Dest(expected)]);
    }
  }

  lemma {:induction false} ServedLasts(start: Directory, expected: string, calls: seq<Call>, n: nat, content: Bytes)
    requires n <= |calls| && WasServed(start, expected, calls[..n], content)
    ensures WasServed(start, expected, calls, content)
  {
    var first := calls[..n];
    var i, j: nat :| 0 <= i < |first| && j < RequestsOf(start, expected, first, i)
                     && Body(first[i].tries(j)) == Some(content);
    assert first[i] == calls[i] && first[..i] == calls[..i];
    assert Body(calls[i].tries(j)) == Some(content);
  }

  // Once cached, the file is never rewritten and no later call makes a request.
  lemma {:induction false} CachedForGood(start: Directory, expected: string, calls: seq<Call>, more: seq<Call>)
    requires Dest(expected) in After(start, expected, calls)
    ensures After(start, expected, calls + more) == After(start, expected, calls)
    ensures forall call :: Fetch(After(start, expected, calls + more), expected, call).2 == 0
  {
    if more == [] {
      assert calls + more == calls;
    } else {
      var n := |more| - 1;
      CachedForGood(start, expected, calls, more[..n]);
      assert (calls + more)[..|calls + more| - 1] == calls + more[..n];
      OneFetch(After(start, expected, calls + more[..n]), expected, more[n]);
    }
    forall call
      ensures Fetch(After(start, expected, calls + more), expected, call).2 == 0
    {
      OneFetch(After(start, expected, calls + more), expected, call);
    }
  }

  // ----- The store as it runs -----

  class HttpStore {
    const expected: string
    var dir: Directory
    var requests: nat
    var pauses: seq<nat>      // seconds slept after each failed attempt

    constructor (expected: string, dir: Directory)
      ensures this.expected == expected && this.dir == dir && requests == 0 && pauses == []
    {
      this.expected := expected;
      this.dir := dir;
      requests := 0;
      pauses := [];
    }

    method DownloadOnce(t: Try) returns (end: TryEnd)
      modifies this`dir, this`requests
      ensures dir == TryOnce(old(dir), Temp(expected), Dest(expected), t) && end == EndOf(t)
      ensures requests == old(requests) + 1
    {
      var dest, temp := Dest(expected), Temp(expected);
      requests := requests + 1;
      if t.RequestFailed? {
        return Failed(t.reason);
      }
      if t.DiedRequesting? {
        return Died;
      }
      if t.WriteFailed? || t.DiedWriting? {
        if t.left.Some? {
          dir := dir[temp := t.left.value];
        }
        return if t.DiedWriting? then Died else Failed(t.reason);
      }
      dir := dir[temp := t.body];
      if t.RenameFailed? {
        return Failed(t.reason);
      }
      if t.DiedWritten? {
        return Died;
      }
      var content := dir[temp];
      dir := dir - {temp};
      dir := dir[dest := content];
      return if t.DiedStored? then Died else Saved;
    }

    // The pause follows every failed attempt, the last one included.
    method DownloadWithRetry(tries: nat -> Try) returns (end: TryEnd)
      modifies this
      ensures
        var (after, last, n) := Attempts(old(dir), Temp(expected), Dest(expected), tries, 0);
        && dir == after && end == last && requests == old(requests) + n
        && |pauses| == |old(pauses)| + (if end.Failed? then n else n - 1)
        && old(pauses) <= pauses
        && forall k :: |old(pauses)| <= k < |pauses| ==> pauses[k] == 2 * (k - |old(pauses)| + 1)
    {
      var lastErr := Failed("download failed without specific error");
      for attempt := 1 to 4
        invariant requests == old(requests) + attempt - 1
        invariant lastErr.Failed?
        invariant |pauses| == |old(pauses)| + attempt - 1 && old(pauses) <= pauses
        invariant forall k :: |old(pauses)| <= k < |pauses| ==> pauses[k] == 2 * (k - |old(pauses)| + 1)
        invariant attempt <= 3 ==>
                    var whole := Attempts(old(dir), Temp(expected), Dest(expected), tries, 0);
                    var rest := Attempts(dir, Temp(expected), Dest(expected), tries, attempt - 1);
                    whole == (rest.0, rest.1, rest.2 + attempt - 1)
        invariant attempt == 4 ==> Attempts(old(dir), Temp(expected), Dest(expected), tries, 0) == (dir, lastErr, 3)
      {
        end := DownloadOnce(tries(attempt - 1));
        if !end.Failed? {
          return;
        }
        lastErr := end;
        pauses := pauses + [attempt * 2];
      }
      return lastErr;
    }

    method FetchHttp(call: Call) returns (end: FetchEnd)
      modifies this
      ensures (dir, end, requests - old(requests)) == Fetch(old(dir), expected, call)
    {
      if call.name != expected {
        return NotServed;
      }
      if call.setupError.Some? {
        return Unusable(call.setupError.value);
      }
      var dest := Dest(expected);
      if dest !in dir {
        if call.clientError.Some? {
          return Unusable(call.clientError.value);
        }
        var downloaded := DownloadWithRetry(call.tries);
        match downloaded {
          case Saved =>
          case Failed(reason) => return Unusable(reason);
          case Died => return Crashed;
        }
      }
      return Fetched(dir[dest]);
    }
  }
}
