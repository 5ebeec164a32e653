/**
  The deployment runner of src/deploy.ts. The deploy process is an explicit
  sequence of events (stdout chunks, stderr chunks, `close`, `error`) fed to the
  handlers that `deployToVercel` registers. The pure functions below say what
  the handlers' state is after any prefix of that sequence; the class
  `DeploymentRun` is the handlers themselves, updating their closure variables
  in place, and is proved to keep that state.
*/
module Deploy {
  import opened Wrappers
  import opened UrlMatch
  import opened NumberText

  /** `{ success, url?, error? }`. */
  datatype DeploymentResult = DeploymentResult(success: bool, url: Option<string>, error: Option<string>)

  /**
    What a child process reports. A `close` code of `None` is Node's `null`
    code for a process ended by a signal; an `error` message of "" stands for
    a missing or empty `error.message`.
  */
  datatype Event =
    | StdoutData(chunk: string)
    | StderrData(chunk: string)
    | Close(code: Option<int>)
    | ProcessError(message: string)
  {
    /** The events whose handler resolves the promise. */
    predicate Settles() {
      Close? || ProcessError?
    }
  }

  const DefaultUrl: string := "https://vercel.com"
  const NotInstalledError: string := "Vercel CLI not installed"
  const NotInstalled: DeploymentResult := DeploymentResult(false, None, Some(NotInstalledError))

  /** JavaScript truthiness of an optional string: present and not "". */
  predicate Truthy(o: Option<string>) {
    o.Some? && o.value != ""
  }

  /**
    `${code}` for a `close` code that is a number or `null`; the text of a
    number starts with a digit or "-", so it is never mistaken for `null`.
  */
  function CodeText(code: Option<int>): (t: string)
    ensures |t| > 0
    ensures code.None? <==> !(t[0] == '-' || IsDigit(t[0]))
  {
    match code
    case None => "null"
    case Some(n) => IntToDecimal(n)
  }

  /** `error.message || 'Unknown error'`. */
  function ErrorText(message: string): (t: string)
    ensures t != ""
  {
    if message == "" then "Unknown error" else message
  }

  const ExitFailurePrefix: string := "Deployment failed with exit code "
  const ExitFailureSuffix: string := ". Check the output above for details."
  const LaunchFailurePrefix: string := "Failed to execute Vercel CLI: "

  /** The failure message of a `close` with a code other than 0; the code's text sits right after the fixed prefix. */
  function ExitFailureMessage(code: Option<int>): (m: string)
    ensures |m| == |ExitFailurePrefix| + |CodeText(code)| + |ExitFailureSuffix|
    ensures m[|ExitFailurePrefix|..|ExitFailurePrefix| + |CodeText(code)|] == CodeText(code)
    ensures m[..|ExitFailurePrefix|] == ExitFailurePrefix && m[|ExitFailurePrefix| + |CodeText(code)|..] == ExitFailureSuffix
  {
    ExitFailurePrefix + CodeText(code) + ExitFailureSuffix
  }

  /** The failure message of an `error`; the error text follows the fixed prefix. */
  function LaunchFailureMessage(message: string): (m: string)
    ensures |m| > |LaunchFailurePrefix|
    ensures m[..|LaunchFailurePrefix|] == LaunchFailurePrefix && m[|LaunchFailurePrefix|..] == ErrorText(message)
  {
    LaunchFailurePrefix + ErrorText(message)
  }

  /**
    The URL a successful close reports: the whole-stdout match, else the
    remembered chunk match, else the default (`url || 'https://vercel.com'`).
  */
  function SuccessUrl(stdout: string, remembered: Option<string>): (u: string)
    ensures u != ""
    ensures ExtractUrl(stdout).Some? ==> u == ExtractUrl(stdout).value
    ensures ExtractUrl(stdout).None? ==> u == (if Truthy(remembered) then remembered.value else DefaultUrl)
  {
    var url := match ExtractUrl(stdout) case Some(m) => Some(m) case None => remembered;
    if Truthy(url) then url.value else DefaultUrl
  }

  /** The result the `close` handler resolves with. */
  function CloseResult(stdout: string, remembered: Option<string>, code: Option<int>): (r: DeploymentResult)
    ensures r.success <==> code == Some(0)
    ensures r.success ==> r.error.None? && r.url.Some? && r.url.value != ""
    ensures !r.success ==> r.url.None? && r.error == Some(ExitFailureMessage(code))
  {
    if code == Some(0) then DeploymentResult(true, Some(SuccessUrl(stdout, remembered)), None)
    else DeploymentResult(false, None, Some(ExitFailureMessage(code)))
  }

  /** The result the `error` handler resolves with. */
  function ErrorResult(message: string): (r: DeploymentResult)
    ensures !r.success && r.url.None? && r.error.Some?
    ensures |r.error.value| > |LaunchFailurePrefix| && r.error.value[|LaunchFailurePrefix|..] == ErrorText(message)
  {
    DeploymentResult(false, None, Some(LaunchFailureMessage(message)))
  }

  /** The line the `close` handler writes for a code other than 0 (`appendLine` adds a line feed). */
  const ExitLinePrefix: string := "\nProcess exited with code "
  function ExitLine(code: Option<int>): (l: string)
    ensures |l| > |ExitLinePrefix| && l[0] == '\n' && l[|l| - 1] == '\n'
    ensures l[..|ExitLinePrefix|] == ExitLinePrefix && l[|ExitLinePrefix|..|l| - 1] == CodeText(code)
  {
    ExitLinePrefix + CodeText(code) + "\n"
  }

  /** The line the `error` handler writes. */
  const ErrorLinePrefix: string := "\nProcess error: "
  function ErrorLine(message: string): (l: string)
    ensures |l| > |ErrorLinePrefix| && l[0] == '\n' && l[|l| - 1] == '\n'
    ensures l[..|ErrorLinePrefix|] == ErrorLinePrefix && l[|ErrorLinePrefix|..|l| - 1] == ErrorText(message)
  {
    ErrorLinePrefix + ErrorText(message) + "\n"
  }

  /** What an event's handler writes to the output channel. */
  function LogEntry(e: Event): (r: string)
    ensures !e.Settles() ==> r == e.chunk
    ensures e == Close(Some(0)) <==> e.Settles() && r == ""
    ensures e.Settles() && r != "" ==> r[0] == '\n' && r[|r| - 1] == '\n'
  {
    match e
    case StdoutData(c) => c
    case StderrData(c) => c
    case Close(code) => if code == Some(0) then "" else ExitLine(code)
    case ProcessError(m) => ErrorLine(m)
  }

  // ---------------------------------------------------------------------------
  // The handlers' state and what one event does to it

  /**
    The closure variables of `deployToVercel` (`stdout`, `stderr`,
    `deploymentUrl`), the text written to the output channel, and the
    promise's value once resolved.
  */
  datatype RunState = RunState(
    stdout: string,
    stderr: string,
    deploymentUrl: Option<string>,
    log: string,
    result: Option<DeploymentResult>)

  const Start: RunState := RunState("", "", None, "", None)

  /** `resolve(r)`: the first call settles the promise, later calls are ignored. */
  function Resolve(current: Option<DeploymentResult>, r: DeploymentResult): (o: Option<DeploymentResult>)
    ensures o.Some?
    ensures current.Some? ==> o == current
    ensures current.None? ==> o == Some(r)
  {
    if current.Some? then current else Some(r)
  }

  /** The handler of one event, as a transition of the run's state. */
  function Next(s: RunState, e: Event): (r: RunState)
    ensures s.result.Some? ==> r.result == s.result
    ensures r.result.Some? <==> s.result.Some? || e.Settles()
    ensures |r.log| - |s.log| >= (|r.stdout| - |s.stdout|) + (|r.stderr| - |s.stderr|)
  {
    match e
    case StdoutData(c) =>
      var urlMatch := ExtractUrl(c);
      s.(stdout := s.stdout + c, log := s.log + c,
         deploymentUrl := if urlMatch.Some? && !Truthy(s.deploymentUrl) then urlMatch else s.deploymentUrl)
    case StderrData(c) =>
      s.(stderr := s.stderr + c, log := s.log + c)
    case Close(code) =>
      s.(log := if code == Some(0) then s.log else s.log + ExitLine(code),
         result := Resolve(s.result, CloseResult(s.stdout, s.deploymentUrl, code)))
    case ProcessError(m) =>
      s.(log := s.log + ErrorLine(m), result := Resolve(s.result, ErrorResult(m)))
  }

  /** The state after the events `h`, handled in arrival order. */
  function Replay(h: seq<Event>): (r: RunState)
    ensures |r.stdout| + |r.stderr| <= |r.log|
  {
    if h == [] then Start else Next(Replay(h[..|h| - 1]), h[|h| - 1])
  }

  /** What the handler of `e` resolves with, after the events `h`; `None` for data events. */
  function Settlement(h: seq<Event>, e: Event): Option<DeploymentResult> {
    match e
    case Close(code) => Some(CloseResult(Replay(h).stdout, Replay(h).deploymentUrl, code))
    case ProcessError(m) => Some(ErrorResult(m))
    case _ => None
  }

  /** A stdout chunk that holds a URL. */
  predicate ChunkMatches(e: Event) {
    e.StdoutData? && ExtractUrl(e.chunk).Some?
  }

  /** `k` is the first stdout chunk of `h` that holds a URL. */
  predicate FirstChunkMatchAt(h: seq<Event>, k: int) {
    0 <= k < |h| && ChunkMatches(h[k]) && forall j :: 0 <= j < k ==> !ChunkMatches(h[j])
  }

  /** `k` is the first event of `h` whose handler resolves the promise. */
  predicate FirstSettleAt(h: seq<Event>, k: int) {
    0 <= k < |h| && h[k].Settles() && forall j :: 0 <= j < k ==> !h[j].Settles()
  }

  /** Reference definition of the `stdout` buffer: the stdout chunks of `h`, concatenated in order. */
  function StdoutChunks(h: seq<Event>): string {
    if h == [] then ""
    else StdoutChunks(h[..|h| - 1]) + (if h[|h| - 1].StdoutData? then h[|h| - 1].chunk else "")
  }

  /** Reference definition of the `stderr` buffer: the stderr chunks of `h`, concatenated in order. */
  function StderrChunks(h: seq<Event>): string {
    if h == [] then ""
    else StderrChunks(h[..|h| - 1]) + (if h[|h| - 1].StderrData? then h[|h| - 1].chunk else "")
  }

  /** Reference definition of the output channel: every event's entry, concatenated in order. */
  function LogEntries(h: seq<Event>): string {
    if h == [] then "" else LogEntries(h[..|h| - 1]) + LogEntry(h[|h| - 1])
  }

  /** The text of every data event of `h`, in order. */
  function ChunksOf(h: seq<Event>): string {
    if h == [] then ""
    else ChunksOf(h[..|h| - 1]) + (if h[|h| - 1].Settles() then "" else h[|h| - 1].chunk)
  }

  /** The invariant the handlers keep: a remembered chunk URL is non-empty and the buffer has a match. */
  predicate Consistent(s: RunState) {
    s.deploymentUrl.Some? ==> Truthy(s.deploymentUrl) && ExtractUrl(s.stdout).Some?
  }

  // ---------------------------------------------------------------------------
  // Properties of the handlers' state

  lemma ReplayStep(h: seq<Event>, e: Event)
    ensures Replay(h + [e]) == Next(Replay(h), e)
  {
  }

  /** Only stdout chunks change the `stdout` buffer, and each appends itself. */
  lemma NextStdout(s: RunState, e: Event)
    ensures Next(s, e).stdout == s.stdout + (if e.StdoutData? then e.chunk else "")
  {
  }

  /** Only stderr chunks change the `stderr` buffer, and each appends itself. */
  lemma NextStderr(s: RunState, e: Event)
    ensures Next(s, e).stderr == s.stderr + (if e.StderrData? then e.chunk else "")
  {
  }

  /** `deploymentUrl` changes only when a chunk holds a URL and no URL is remembered yet. */
  lemma NextRemembered(s: RunState, e: Event)
    ensures Next(s, e).deploymentUrl ==
      if ChunkMatches(e) && !Truthy(s.deploymentUrl) then ExtractUrl(e.chunk) else s.deploymentUrl
  {
  }

  /** Each handler appends its own entry to the output channel, whatever the state. */
  lemma NextLog(s: RunState, e: Event)
    ensures Next(s, e).log == s.log + LogEntry(e)
  {
  }

  lemma ReplayStdoutStep(h: seq<Event>, e: Event)
    ensures Replay(h + [e]).stdout == Replay(h).stdout + (if e.StdoutData? then e.chunk else "")
  {
    ReplayStep(h, e);
    NextStdout(Replay(h), e);
  }

  lemma ReplayStderrStep(h: seq<Event>, e: Event)
    ensures Replay(h + [e]).stderr == Replay(h).stderr + (if e.StderrData? then e.chunk else "")
  {
    ReplayStep(h, e);
    NextStderr(Replay(h), e);
  }

  lemma ReplayLogStep(h: seq<Event>, e: Event)
    ensures Replay(h + [e]).log == Replay(h).log + LogEntry(e)
  {
    ReplayStep(h, e);
    NextLog(Replay(h), e);
  }

  lemma ReplayRememberedStep(h: seq<Event>, e: Event)
    ensures Replay(h + [e]).deploymentUrl ==
      if ChunkMatches(e) && !Truthy(Replay(h).deploymentUrl) then ExtractUrl(e.chunk) else Replay(h).deploymentUrl
  {
    ReplayStep(h, e);
    NextRemembered(Replay(h), e);
  }

  lemma ReplayResultStep(h: seq<Event>, e: Event)
    ensures Replay(h + [e]).result == if Replay(h).result.Some? then Replay(h).result else Settlement(h, e)
  {
    ReplayStep(h, e);
  }

  /** Each handler keeps `Consistent`: the chunk in which a URL was found ends up in the buffer. */
  lemma NextKeepsConsistent(s: RunState, e: Event)
    requires Consistent(s)
    ensures Consistent(Next(s, e))
  {
    NextStdout(s, e);
    NextRemembered(s, e);
    if e.StdoutData? {
      if s.deploymentUrl.Some? {
        BufferMatchSurvivesAppend(s.stdout, e.chunk);
      } else if ExtractUrl(e.chunk).Some? {
        ChunkMatchSurvivesPrefix(s.stdout, e.chunk);
      }
    }
  }

  lemma {:induction false} ReplayConsistent(h: seq<Event>)
    ensures Consistent(Replay(h))
  {
    if h != [] {
      ReplayConsistent(h[..|h| - 1]);
      NextKeepsConsistent(Replay(h[..|h| - 1]), h[|h| - 1]);
    }
  }

  /**
    The `stdout` and `stderr` buffers are the concatenations of their chunks,
    and the output channel holds every handler's entry, all in arrival order.
  */
  lemma {:induction false} ReplayBuffers(h: seq<Event>)
    ensures Replay(h).stdout == StdoutChunks(h)
    ensures Replay(h).stderr == StderrChunks(h)
    ensures Replay(h).log == LogEntries(h)
  {
    if h != [] {
      var h', e := h[..|h| - 1], h[|h| - 1];
      assert h == h' + [e];
      ReplayBuffers(h');
      ReplayStdoutStep(h', e);
      ReplayStderrStep(h', e);
      ReplayLogStep(h', e);
    }
  }

  /** The output channel is append-only: a later history only adds text after what was there. */
  lemma {:induction false} LogEntriesAppend(p: seq<Event>, q: seq<Event>)
    ensures LogEntries(p + q) == LogEntries(p) + LogEntries(q)
    decreases |q|
  {
    if q == [] {
      assert p + q == p;
    } else {
      var q', e := q[..|q| - 1], q[|q| - 1];
      SplitLast(p, q);
      LogEntriesStep(p + q', e);
      LogEntriesAppend(p, q');
      LogEntriesStep(q', e);
      StringAppendAssoc(LogEntries(p), LogEntries(q'), LogEntry(e));
    }
  }

  lemma StringAppendAssoc(a: string, b: string, c: string)
    ensures (a + b) + c == a + (b + c)
  {
  }

  lemma SplitLast(p: seq<Event>, q: seq<Event>)
    requires q != []
    ensures q == q[..|q| - 1] + [q[|q| - 1]]
    ensures p + q == (p + q[..|q| - 1]) + [q[|q| - 1]]
  {
  }

  /** Every stdout or stderr chunk reaches the output channel, at its place in arrival order. */
  lemma LogHoldsChunk(h: seq<Event>, k: int)
    requires 0 <= k < |h| && (h[k].StdoutData? || h[k].StderrData?)
    ensures Replay(h).log == Replay(h[..k]).log + h[k].chunk + Replay(h[k + 1..]).log
  {
    LogEntriesAround(h, k);
    ReplayBuffers(h);
    ReplayBuffers(h[..k]);
    ReplayBuffers(h[k + 1..]);
  }

  lemma LogEntriesAround(h: seq<Event>, k: int)
    requires 0 <= k < |h|
    ensures LogEntries(h) == LogEntries(h[..k]) + LogEntry(h[k]) + LogEntries(h[k + 1..])
  {
    var before, e, after := h[..k], h[k], h[k + 1..];
    SplitAt(h, k);
    LogEntriesAppend(before + [e], after);
    LogEntriesStep(before, e);
  }

  lemma SplitAt(h: seq<Event>, k: int)
    requires 0 <= k < |h|
    ensures h == (h[..k] + [h[k]]) + h[k + 1..]
  {
  }

  lemma LogEntriesStep(h: seq<Event>, e: Event)
    ensures LogEntries(h + [e]) == LogEntries(h) + LogEntry(e)
  {
  }

  /** With no `close` or `error`, the output channel holds exactly the chunks, in arrival order. */
  lemma LogOfDataOnly(h: seq<Event>)
    requires forall k :: 0 <= k < |h| ==> !h[k].Settles()
    ensures Replay(h).log == ChunksOf(h)
  {
    ReplayBuffers(h);
    LogEntriesDataOnly(h);
  }

  lemma {:induction false} LogEntriesDataOnly(h: seq<Event>)
    requires forall k :: 0 <= k < |h| ==> !h[k].Settles()
    ensures LogEntries(h) == ChunksOf(h)
  {
    if h != [] {
      LogEntriesDataOnly(h[..|h| - 1]);
    }
  }

  /**
    `deploymentUrl` holds the match of the first stdout chunk that has one, and
    is unset exactly when no stdout chunk has one.
  */
  lemma {:induction false} RememberedIsFirstChunkMatch(h: seq<Event>)
    ensures Replay(h).deploymentUrl.None? <==> forall k :: 0 <= k < |h| ==> !ChunkMatches(h[k])
    ensures Replay(h).deploymentUrl.Some? ==>
      exists k :: FirstChunkMatchAt(h, k) && Replay(h).deploymentUrl == ExtractUrl(h[k].chunk)
  {
    if h != [] {
      var h', e := h[..|h| - 1], h[|h| - 1];
      assert h == h' + [e];
      RememberedIsFirstChunkMatch(h');
      ReplayConsistent(h');
      ReplayStep(h', e);
      NextRemembered(Replay(h'), e);
      assert forall k :: 0 <= k < |h'| ==> h'[k] == h[k];
      if Replay(h').deploymentUrl.Some? {
        var k :| FirstChunkMatchAt(h', k) && Replay(h').deploymentUrl == ExtractUrl(h'[k].chunk);
        assert FirstChunkMatchAt(h, k);
      } else if ChunkMatches(e) {
        assert FirstChunkMatchAt(h, |h| - 1);
      }
    }
  }

  /** Once set, `deploymentUrl` is never overwritten by later chunks. */
  lemma {:induction false} RememberedStable(p: seq<Event>, q: seq<Event>)
    requires Replay(p).deploymentUrl.Some?
    ensures Replay(p + q).deploymentUrl == Replay(p).deploymentUrl
    decreases |q|
  {
    if q == [] {
      assert p + q == p;
    } else {
      var q', e := q[..|q| - 1], q[|q| - 1];
      assert p + q == (p + q') + [e];
      RememberedStable(p, q');
      ReplayStep(p + q', e);
      ReplayConsistent(p + q');
    }
  }

  /** If a chunk match was remembered, the whole stdout buffer has a match too. */
  lemma RememberedImpliesBufferMatch(h: seq<Event>)
    requires Replay(h).deploymentUrl.Some?
    ensures ExtractUrl(Replay(h).stdout).Some?
  {
    ReplayConsistent(h);
  }

  /**
    The chunk-level fallback is never what a successful close reports: the URL
    is the whole-stdout match when there is one, and the default otherwise.
  */
  lemma FallbackNeverUsed(h: seq<Event>)
    ensures SuccessUrl(Replay(h).stdout, Replay(h).deploymentUrl) ==
      match ExtractUrl(Replay(h).stdout) case Some(u) => u case None => DefaultUrl
  {
    ReplayConsistent(h);
    ConsistentSuccessUrl(Replay(h));
  }

  /** In a state that keeps `Consistent`, the success URL is the buffer match or the default. */
  lemma ConsistentSuccessUrl(s: RunState)
    requires Consistent(s)
    ensures SuccessUrl(s.stdout, s.deploymentUrl) ==
      match ExtractUrl(s.stdout) case Some(u) => u case None => DefaultUrl
  {
  }

  /** Once resolved, the result does not change, whatever events follow. */
  lemma {:induction false} ResultSettledOnce(p: seq<Event>, q: seq<Event>)
    requires Replay(p).result.Some?
    ensures Replay(p + q).result == Replay(p).result
    decreases |q|
  {
    if q == [] {
      assert p + q == p;
    } else {
      var q', e := q[..|q| - 1], q[|q| - 1];
      SplitLast(p, q);
      ResultSettledOnce(p, q');
      ReplayResultStep(p + q', e);
    }
  }

  /**
    The result is unresolved exactly when no `close` or `error` has arrived,
    and is otherwise what the handler of the first of them resolved with.
  */
  lemma {:induction false} ResultIsFirstSettlement(h: seq<Event>)
    ensures Replay(h).result.None? <==> forall k :: 0 <= k < |h| ==> !h[k].Settles()
    ensures Replay(h).result.Some? ==> exists k :: FirstSettleAt(h, k) && Replay(h).result == Settlement(h[..k], h[k])
  {
    if h != [] {
      var h', e := h[..|h| - 1], h[|h| - 1];
      assert h == h' + [e];
      ResultIsFirstSettlement(h');
      ReplayResultStep(h', e);
      if Replay(h').result.Some? {
        var k :| FirstSettleAt(h', k) && Replay(h').result == Settlement(h'[..k], h'[k]);
        assert h'[..k] == h[..k] && h'[k] == h[k];
        assert FirstSettleAt(h, k);
      } else if e.Settles() {
        assert FirstSettleAt(h, |h| - 1);
      }
    }
  }

  /**
    A successful result comes from a first settling event `close` with code 0;
    it carries no error and a URL that starts with "https://", namely the
    match in the stdout received before the close, or the default URL.
  */
  lemma SuccessfulResult(h: seq<Event>)
    requires Replay(h).result.Some? && Replay(h).result.value.success
    ensures Replay(h).result.value.error.None? && Replay(h).result.value.url.Some?
    ensures |Replay(h).result.value.url.value| > |Scheme| && Replay(h).result.value.url.value[..|Scheme|] == Scheme
    ensures exists k ::
      && FirstSettleAt(h, k) && h[k] == Close(Some(0))
      && Replay(h).result.value.url.value == match ExtractUrl(Replay(h[..k]).stdout) case Some(u) => u case None => DefaultUrl
  {
    ResultIsFirstSettlement(h);
    var k :| FirstSettleAt(h, k) && Replay(h).result == Settlement(h[..k], h[k]);
    SuccessfulSettlement(h[..k], h[k]);
    SuccessUrlShape(Replay(h[..k]).stdout);
  }

  /** A handler that resolves with success is a `close` with code 0, reporting the buffer match or the default. */
  lemma SuccessfulSettlement(p: seq<Event>, e: Event)
    requires Settlement(p, e).Some? && Settlement(p, e).value.success
    ensures e == Close(Some(0)) && Settlement(p, e).value.error.None?
    ensures Settlement(p, e).value.url == Some(match ExtractUrl(Replay(p).stdout) case Some(u) => u case None => DefaultUrl)
  {
    FallbackNeverUsed(p);
  }

  /** The buffer match and the default URL both start with "https://" and go on past it. */
  lemma SuccessUrlShape(stdout: string)
    ensures var u := match ExtractUrl(stdout) case Some(u) => u case None => DefaultUrl;
      |u| > |Scheme| && u[..|Scheme|] == Scheme
  {
    if ExtractUrl(stdout).Some? {
      ExtractUrlShape(stdout);
    }
  }

  /**
    A failed result comes from a first settling event that is a `close` with a
    code other than 0, whose message embeds the code, or an `error`, whose
    message embeds the error text.
  */
  lemma FailedResult(h: seq<Event>)
    requires Replay(h).result.Some? && !Replay(h).result.value.success
    ensures Replay(h).result.value.url.None? && Replay(h).result.value.error.Some?
    ensures exists k ::
      && FirstSettleAt(h, k)
      && match h[k]
      case Close(code) => code != Some(0) && Replay(h).result.value.error == Some(ExitFailureMessage(code))
      case ProcessError(m) => Replay(h).result.value.error == Some(LaunchFailureMessage(m))
      case _ => false
  {
    ResultIsFirstSettlement(h);
  }

  /** Exit code 7: the failure message names the code. */
  lemma ExitSevenExample(stdout: string, remembered: Option<string>)
    ensures CloseResult(stdout, remembered, Some(7)).error ==
      Some(ExitFailurePrefix + "7" + ExitFailureSuffix)
  {
  }

  /** Two different exit codes give two different failure messages. */
  lemma ExitFailureMessageInjective(a: Option<int>, b: Option<int>)
    requires ExitFailureMessage(a) == ExitFailureMessage(b)
    ensures a == b
  {
    var prefix, suffix := ExitFailurePrefix, ExitFailureSuffix;
    var ta, tb := CodeText(a), CodeText(b);
    assert ExitFailureMessage(a) == prefix + ta + suffix;
    assert ExitFailureMessage(b) == prefix + tb + suffix;
    assert ta == ExitFailureMessage(a)[|prefix|..|prefix| + |ta|];
    assert |ta| == |tb|;
    assert tb == ExitFailureMessage(b)[|prefix|..|prefix| + |tb|];
    if a.Some? && b.Some? {
      IntToDecimalInjective(a.value, b.value);
    }
  }

  // ---------------------------------------------------------------------------
  // The CLI availability check (`vercel --version`)

  /**
    `checkVercelCliInstalled`: resolved by the first `close` (installed iff the
    code is 0) or `error` (not installed); `None` while neither has arrived.
  */
  function CliInstalled(events: seq<Event>): (r: Option<bool>)
    ensures r == Some(true) ==> Close(Some(0)) in events
    ensures r == Some(false) ==> exists k :: 0 <= k < |events| && events[k].Settles() && events[k] != Close(Some(0))
  {
    if events == [] then None
    else match events[0]
      case Close(code) => Some(code == Some(0))
      case ProcessError(_) => Some(false)
      case _ => CliInstalled(events[1..])
  }

  /** The check is installed exactly when its first settling event is `close` with code 0. */
  lemma {:induction false} CliInstalledIsFirstSettlement(events: seq<Event>)
    ensures CliInstalled(events).None? <==> forall k :: 0 <= k < |events| ==> !events[k].Settles()
    ensures CliInstalled(events).Some? ==>
      exists k :: FirstSettleAt(events, k) && (CliInstalled(events).value <==> events[k] == Close(Some(0)))
  {
    if events != [] {
      if events[0].Settles() {
        assert FirstSettleAt(events, 0);
      } else {
        var rest := events[1..];
        CliInstalledIsFirstSettlement(rest);
        assert forall k :: 0 <= k < |rest| ==> rest[k] == events[k + 1];
        if CliInstalled(rest).Some? {
          var k :| FirstSettleAt(rest, k) && (CliInstalled(rest).value <==> rest[k] == Close(Some(0)));
          assert FirstSettleAt(events, k + 1);
        }
      }
    }
  }

  // ---------------------------------------------------------------------------
  // The handlers, updating their closure variables in place

  class DeploymentRun {
    var stdout: string
    var stderr: string
    var deploymentUrl: Option<string>
    /** The text this run has written to the output channel. */
    var log: string
    /** The promise's value once resolved; a later `resolve` leaves it as it is. */
    var result: Option<DeploymentResult>

    function Snapshot(): RunState
      reads this
    {
      RunState(stdout, stderr, deploymentUrl, log, result)
    }

    ghost predicate Valid()
      reads this
    {
      Consistent(Snapshot())
    }

    constructor ()
      ensures Valid() && Snapshot() == Start
    {
      stdout, stderr, deploymentUrl, log, result := "", "", None, "", None;
    }

    /** The `stdout` `data` handler. */
    method OnStdout(output: string)
      requires Valid()
      modifies this
      ensures Valid() && Snapshot() == Next(old(Snapshot()), StdoutData(output))
    {
      NextKeepsConsistent(Snapshot(), StdoutData(output));
      stdout := stdout + output;
      log := log + output;
      var urlMatch := ExtractUrl(output);
      if urlMatch.Some? && !Truthy(deploymentUrl) {
        deploymentUrl := urlMatch;
      }
    }

    /** The `stderr` `data` handler. */
    method OnStderr(output: string)
      requires Valid()
      modifies this
      ensures Valid() && Snapshot() == Next(old(Snapshot()), StderrData(output))
    {
      stderr := stderr + output;
      log := log + output;
    }

    /** The `close` handler. */
    method OnClose(code: Option<int>)
      requires Valid()
      modifies this
      ensures Valid() && Snapshot() == Next(old(Snapshot()), Close(code))
      ensures old(result).None? && code == Some(0) ==>
        result == Some(DeploymentResult(true, Some(match ExtractUrl(stdout) case Some(u) => u case None => DefaultUrl), None))
    {
      ConsistentSuccessUrl(Snapshot());
      if code == Some(0) {
        var urlMatch := ExtractUrl(stdout);
        var url := if urlMatch.Some? then urlMatch else deploymentUrl;
        if result.None? {
          result := Some(DeploymentResult(true, Some(if Truthy(url) then url.value else DefaultUrl), None));
        }
      } else {
        log := log + ExitLine(code);
        if result.None? {
          result := Some(DeploymentResult(false, None, Some(ExitFailureMessage(code))));
        }
      }
    }

    /** The `error` handler. */
    method OnError(message: string)
      requires Valid()
      modifies this
      ensures Valid() && Snapshot() == Next(old(Snapshot()), ProcessError(message))
    {
      log := log + ErrorLine(message);
      if result.None? {
        result := Some(DeploymentResult(false, None, Some(LaunchFailureMessage(message))));
      }
    }

    /** Dispatches one event to its handler. */
    method Handle(e: Event)
      requires Valid()
      modifies this
      ensures Valid() && Snapshot() == Next(old(Snapshot()), e)
    {
      match e
      case StdoutData(c) => OnStdout(c);
      case StderrData(c) => OnStderr(c);
      case Close(code) => OnClose(code);
      case ProcessError(m) => OnError(m);
    }
  }

  /**
    `deployToVercel`: the availability check's events decide whether the
    deployment's events are handled at all. Returns the promise's value
    (`None` while it is pending) and the text written to the output channel.
  */
  method DeployToVercel(checkEvents: seq<Event>, deployEvents: seq<Event>) returns (outcome: Option<DeploymentResult>, log: string)
    ensures CliInstalled(checkEvents).None? ==> outcome.None? && log == ""
    ensures CliInstalled(checkEvents) == Some(false) ==> outcome == Some(NotInstalled) && log == ""
    ensures CliInstalled(checkEvents) == Some(true) ==> outcome == Replay(deployEvents).result && log == Replay(deployEvents).log
  {
    var cliCheck := CliInstalled(checkEvents);
    if cliCheck.None? {
      // the check never resolves, so neither does the deployment
      return None, "";
    }
    if !cliCheck.value {
      return Some(NotInstalled), "";
    }
    outcome, log := RunDeployment(deployEvents);
  }

  /** The deployment process's events, each handed to its handler in arrival order. */
  method RunDeployment(events: seq<Event>) returns (outcome: Option<DeploymentResult>, log: string)
    ensures outcome == Replay(events).result && log == Replay(events).log
  {
    var run := new DeploymentRun();
    for i := 0 to |events|
      invariant run.Valid()
      invariant run.Snapshot() == Replay(events[..i])
    {
      run.Handle(events[i]);
      ReplayStep(events[..i], events[i]);
      assert events[..i + 1] == events[..i] + [events[i]];
    }
    assert events[..|events|] == events;
    outcome, log := run.result, run.log;
  }
}
