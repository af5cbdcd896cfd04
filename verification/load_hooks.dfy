/** The four LoadLibrary replacements of the FE plugin and the activation
    recheck they run after every forwarded load.

    A hook call is modelled as a pure function from the intercepted `Call`, the
    plugin's `Context` (block list, loader version) and the `Loader`
    collaborators (path splitting, string widening, the saved original) to an
    `Outcome`: the handle the caller gets, the last-error value the hook set, and
    the ordered trace of observable events. */
module LoadHooks {

  import opened Wrappers

  /** Win32 `ERROR_MOD_NOT_FOUND`. */
  const ErrorModNotFound: nat := 126

  type Byte = x: int | 0 <= x < 256
  type DWord = x: int | 0 <= x < 0x1_0000_0000

  /** A narrow (ANSI) path as the byte string the caller passed. */
  type NarrowPath = seq<Byte>

  /** An `HMODULE`: `NULL` or the base of a loaded module. */
  datatype HModule = Null | Module(base: nat)

  /** The API family the host loader was built for. Only D3D9 and DXGI select
      a family installer; every other version selects none. */
  datatype LoaderVersion = D3D9 | DXGI | OtherLoader

  /** The two families whose secondary hooks the recheck may install. */
  datatype Family = D3D9Family | D3D11Family

  /** One intercepted call, with the caller's arguments exactly as passed. */
  datatype Call =
    | LoadLibraryA(narrow: NarrowPath)
    | LoadLibraryW(wide: string)
    | LoadLibraryExA(narrow: NarrowPath, hFile: nat, flags: DWord)
    | LoadLibraryExW(wide: string, hFile: nat, flags: DWord)
  {
    predicate IsNarrow() {
      LoadLibraryA? || LoadLibraryExA?
    }
  }

  /** Observable effects of a hook call, in order. The family, Inet and
      Window installers are opaque: only the fact that one ran is recorded. */
  datatype Event =
    | CallOriginal(call: Call)
    | InstallFamilyHooks(family: Family)
    | InstallInetHooks
    | InstallWindowHooks
    | LogBlocked(name: string)
    | LogFilterException
  {
    predicate IsLog() {
      LogBlocked? || LogFilterException?
    }

    predicate IsInstaller() {
      InstallFamilyHooks? || InstallInetHooks? || InstallWindowHooks?
    }
  }

  /** Read-only state the hooks share: the block list parsed at startup and
      the loader version reported by the host. */
  datatype Context = Context(blocked: seq<string>, version: LoaderVersion)

  /** Collaborators whose code is not part of this model. `None` from the
      first three stands for a thrown exception; `original` is the saved
      pre-hook function, giving the handle it would return for a call. */
  datatype Loader = Loader(
    fileNameA: NarrowPath -> Option<NarrowPath>,
    toWide: NarrowPath -> Option<string>,
    fileNameW: string -> Option<string>,
    original: Call -> HModule)

  /** `lastError` is the value the hook itself passed to `SetLastError`, if
      any; what the original or the installers leave there is not tracked. */
  datatype Outcome = Outcome(result: HModule, lastError: Option<nat>, trace: seq<Event>)

  /** The position `std::find` returns: the first index holding `name`, or
      `|blocked|` when there is none. */
  function Find(blocked: seq<string>, name: string, from: nat): (i: nat)
    requires from <= |blocked|
    ensures from <= i <= |blocked|
    ensures i < |blocked| ==> blocked[i] == name
    ensures forall j :: from <= j < i ==> blocked[j] != name
    decreases |blocked| - from
  {
    if from == |blocked| then from
    else if blocked[from] == name then from
    else Find(blocked, name, from + 1)
  }

  /** `FilterLoadLibraryW`: true (allow) unless `name` is an element of the
      block list under exact string equality. */
  function FilterLoadLibraryW(blocked: seq<string>, name: string): (allow: bool)
    ensures allow <==> name !in blocked
    ensures !allow ==> exists j :: 0 <= j < |blocked| && blocked[j] == name
  {
    Find(blocked, name, 0) == |blocked|
  }

  /** The plugin-level `InstallHooksIfLoaded`: the family installer chosen by
      the loader version (at most one), then the Inet and Window installers. */
  function InstallHooksIfLoaded(version: LoaderVersion): (r: seq<Event>)
    ensures 2 <= |r| <= 3
    ensures r[|r| - 2] == InstallInetHooks && r[|r| - 1] == InstallWindowHooks
    ensures InstallFamilyHooks(D3D9Family) in r <==> version == D3D9
    ensures InstallFamilyHooks(D3D11Family) in r <==> version == DXGI
    ensures !(InstallFamilyHooks(D3D9Family) in r && InstallFamilyHooks(D3D11Family) in r)
    ensures |r| == 3 <==> version != OtherLoader
    ensures version != OtherLoader ==> r[0].InstallFamilyHooks?
    ensures forall e :: e in r ==> e.IsInstaller()
  {
    match version
    case D3D9 => [InstallFamilyHooks(D3D9Family), InstallInetHooks, InstallWindowHooks]
    case DXGI => [InstallFamilyHooks(D3D11Family), InstallInetHooks, InstallWindowHooks]
    case OtherLoader => [InstallInetHooks, InstallWindowHooks]
  }

  /** The file name the hook filters on: `GetPathFileNameA` then `ToWString`
      for the narrow variants, `GetPathFileNameW` for the wide ones. `None`
      when either step throws. */
  function FileName(loader: Loader, call: Call): Option<string>
  {
    if call.IsNarrow() then
      match loader.fileNameA(call.narrow)
      case None => None
      case Some(n) => loader.toWide(n)
    else loader.fileNameW(call.wide)
  }

  /** The decision the try block reaches. `FilterFailed` is the catch path. */
  datatype Verdict = Allow | Deny(name: string) | FilterFailed

  function Screen(ctx: Context, loader: Loader, call: Call): (v: Verdict)
    ensures v.Deny? <==> FileName(loader, call).Some? && FileName(loader, call).value in ctx.blocked
    ensures v.FilterFailed? <==> FileName(loader, call).None?
  {
    match FileName(loader, call)
    case None => FilterFailed
    case Some(n) => if FilterLoadLibraryW(ctx.blocked, n) then Allow else Deny(n)
  }

  /** The module-name check rejects the call. */
  predicate Blocked(ctx: Context, loader: Loader, call: Call) {
    FileName(loader, call).Some? && FileName(loader, call).value in ctx.blocked
  }

  /** One call of `LoadLibraryA_Hook`, `LoadLibraryW_Hook`,
      `LoadLibraryExA_Hook` or `LoadLibraryExW_Hook`, chosen by the shape of
      `call`. */
  function Intercept(ctx: Context, loader: Loader, call: Call): (o: Outcome)
    ensures o.lastError.Some? <==> Blocked(ctx, loader, call)
    ensures o.lastError.Some? ==> o.result == Null && o.lastError == Some(ErrorModNotFound)
    ensures o.lastError.Some? ==> forall e :: e in o.trace ==> e.IsLog()
    ensures o.lastError.None? ==> o.result == loader.original(call)
    ensures o.lastError.None? ==> CallOriginal(call) in o.trace
    ensures o.lastError.None? ==> |o.trace| > |InstallHooksIfLoaded(ctx.version)|
    ensures o.lastError.None? ==> o.trace[|o.trace| - |InstallHooksIfLoaded(ctx.version)|..] == InstallHooksIfLoaded(ctx.version)
    ensures LogFilterException in o.trace <==> FileName(loader, call).None?
  {
    match Screen(ctx, loader, call)
    case Deny(n) => Outcome(Null, Some(ErrorModNotFound), [LogBlocked(n)])
    case Allow => Forward(ctx, loader, call, [])
    case FilterFailed => Forward(ctx, loader, call, [LogFilterException])
  }

  /** The code after the try/catch: call the original once with the caller's
      arguments, recheck, return the original's handle untouched. */
  function Forward(ctx: Context, loader: Loader, call: Call, logged: seq<Event>): (o: Outcome)
    requires forall e :: e in logged ==> e.IsLog()
    ensures o.lastError.None? && o.result == loader.original(call)
    ensures |o.trace| == |logged| + 1 + |InstallHooksIfLoaded(ctx.version)|
    ensures o.trace[..|logged|] == logged
    ensures o.trace[|logged|] == CallOriginal(call)
    ensures o.trace[|logged| + 1..] == InstallHooksIfLoaded(ctx.version)
  {
    Outcome(loader.original(call), None, logged + [CallOriginal(call)] + InstallHooksIfLoaded(ctx.version))
  }

  /** Number of calls that reached the saved original. */
  function OriginalCalls(trace: seq<Event>): nat
    decreases |trace|
  {
    if |trace| == 0 then 0
    else OriginalCalls(trace[..|trace| - 1]) + (if trace[|trace| - 1].CallOriginal? then 1 else 0)
  }

  lemma {:induction false} OriginalCallsAppend(a: seq<Event>, b: seq<Event>)
    ensures OriginalCalls(a + b) == OriginalCalls(a) + OriginalCalls(b)
    decreases |b|
  {
    if |b| == 0 {
      assert a + b == a;
    } else {
      var b' := b[..|b| - 1];
      assert (a + b)[..|a + b| - 1] == a + b';
      OriginalCallsAppend(a, b');
    }
  }

  lemma {:induction false} NoOriginalCalls(t: seq<Event>)
    requires forall e :: e in t ==> !e.CallOriginal?
    ensures OriginalCalls(t) == 0
    decreases |t|
  {
    if |t| > 0 {
      assert forall e :: e in t[..|t| - 1] ==> e in t;
      NoOriginalCalls(t[..|t| - 1]);
    }
  }

  /** Reference shape of a denied call: `NULL`, `ERROR_MOD_NOT_FOUND`, and
      nothing but logging happened. */
  ghost predicate FullyDenied(o: Outcome) {
    && o.result == Null
    && o.lastError == Some(ErrorModNotFound)
    && OriginalCalls(o.trace) == 0
    && forall e :: e in o.trace ==> !e.IsInstaller()
  }

  /** Reference shape of a forwarded call: the hook sets no last error of
      its own, the original's handle is returned, and exactly one original
      call carries the caller's arguments, preceded only by logging and
      followed by the full activation recheck. */
  ghost predicate ForwardedOnce(o: Outcome, call: Call, original: Call -> HModule, version: LoaderVersion) {
    && o.lastError == None
    && o.result == original(call)
    && OriginalCalls(o.trace) == 1
    && exists k :: 0 <= k < |o.trace|
         && o.trace[k] == CallOriginal(call)
         && (forall j :: 0 <= j < k ==> o.trace[j].IsLog())
         && o.trace[k + 1..] == InstallHooksIfLoaded(version)
  }

  lemma ForwardShape(ctx: Context, loader: Loader, call: Call, logged: seq<Event>)
    requires forall e :: e in logged ==> e.IsLog()
    ensures ForwardedOnce(Forward(ctx, loader, call, logged), call, loader.original, ctx.version)
  {
    var o := Forward(ctx, loader, call, logged);
    var k := |logged|;
    var rc := InstallHooksIfLoaded(ctx.version);
    assert o.trace == (logged + [CallOriginal(call)]) + rc;
    OriginalCallsAppend(logged + [CallOriginal(call)], rc);
    OriginalCallsAppend(logged, [CallOriginal(call)]);
    NoOriginalCalls(logged);
    NoOriginalCalls(rc);
    assert [CallOriginal(call)][..0] == [];
    assert forall j :: 0 <= j < k ==> o.trace[j] == logged[j];
    assert forall j :: 0 <= j < k ==> o.trace[j].IsLog();
  }

  /** Deny path: when the file name is on the block list the hook returns
      `NULL` with `ERROR_MOD_NOT_FOUND`, never reaches the original and never
      runs the recheck. */
  lemma DenyNeverReachesOriginal(ctx: Context, loader: Loader, call: Call)
    requires Blocked(ctx, loader, call)
    ensures FullyDenied(Intercept(ctx, loader, call))
  {
    var o := Intercept(ctx, loader, call);
    NoOriginalCalls(o.trace);
  }

  /** Allow path: when the file name is not blocked the original is called
      exactly once with the unmodified arguments, then the recheck runs, and
      the original's handle is returned whatever it is. */
  lemma AllowCallsOriginalOnceThenRechecks(ctx: Context, loader: Loader, call: Call)
    requires !Blocked(ctx, loader, call)
    ensures ForwardedOnce(Intercept(ctx, loader, call), call, loader.original, ctx.version)
  {
    match Screen(ctx, loader, call)
    case Allow => ForwardShape(ctx, loader, call, []);
    case FilterFailed => ForwardShape(ctx, loader, call, [LogFilterException]);
  }

  /** Fail-open: an exception while extracting or widening the file name is
      logged and the load proceeds; it never yields a denial. */
  lemma FailOpen(ctx: Context, loader: Loader, call: Call)
    requires FileName(loader, call).None?
    ensures var o := Intercept(ctx, loader, call);
      && ForwardedOnce(o, call, loader.original, ctx.version)
      && o.trace[0] == LogFilterException
      && o.lastError != Some(ErrorModNotFound)
  {
    AllowCallsOriginalOnceThenRechecks(ctx, loader, call);
  }

  /** No partial forwarding: every hook call is either fully denied or fully
      forwarded, never both, and which one is decided by the block list. */
  lemma DeniedOrForwarded(ctx: Context, loader: Loader, call: Call)
    ensures var o := Intercept(ctx, loader, call);
      && (FullyDenied(o) <==> Blocked(ctx, loader, call))
      && (ForwardedOnce(o, call, loader.original, ctx.version) <==> !Blocked(ctx, loader, call))
  {
    if Blocked(ctx, loader, call) {
      DenyNeverReachesOriginal(ctx, loader, call);
    } else {
      AllowCallsOriginalOnceThenRechecks(ctx, loader, call);
    }
  }

  /** A sequence of intercepted calls on one thread: the traces of the
      individual calls, concatenated. */
  function SessionTrace(ctx: Context, loader: Loader, calls: seq<Call>): seq<Event>
    decreases |calls|
  {
    if |calls| == 0 then []
    else SessionTrace(ctx, loader, calls[..|calls| - 1]) + Intercept(ctx, loader, calls[|calls| - 1]).trace
  }

  /** The calls among `calls` that pass the block list. */
  function AllowedCalls(ctx: Context, loader: Loader, calls: seq<Call>): seq<Call>
    decreases |calls|
  {
    if |calls| == 0 then []
    else
      var last := calls[|calls| - 1];
      AllowedCalls(ctx, loader, calls[..|calls| - 1]) + (if Blocked(ctx, loader, last) then [] else [last])
  }

  /** Over any sequence of loads, the original is reached exactly once per
      allowed call and never for a blocked one. */
  lemma {:induction false} SessionForwardsExactlyAllowed(ctx: Context, loader: Loader, calls: seq<Call>)
    ensures OriginalCalls(SessionTrace(ctx, loader, calls)) == |AllowedCalls(ctx, loader, calls)|
    ensures forall e :: e in SessionTrace(ctx, loader, calls) && e.CallOriginal? ==> !Blocked(ctx, loader, e.call)
    decreases |calls|
  {
    if |calls| > 0 {
      var init := calls[..|calls| - 1];
      var last := calls[|calls| - 1];
      SessionForwardsExactlyAllowed(ctx, loader, init);
      var o := Intercept(ctx, loader, last);
      OriginalCallsAppend(SessionTrace(ctx, loader, init), o.trace);
      DeniedOrForwarded(ctx, loader, last);
      if !Blocked(ctx, loader, last) {
        ForwardCallsOnlyTheCall(ctx, loader, last);
      }
    }
  }

  /** The only original call a forwarding hook makes is the intercepted one. */
  lemma ForwardCallsOnlyTheCall(ctx: Context, loader: Loader, call: Call)
    requires !Blocked(ctx, loader, call)
    ensures forall e :: e in Intercept(ctx, loader, call).trace && e.CallOriginal? ==> e.call == call
  {
    var logged := if FileName(loader, call).None? then [LogFilterException] else [];
    assert Intercept(ctx, loader, call).trace == logged + [CallOriginal(call)] + InstallHooksIfLoaded(ctx.version);
  }
}
