# FE plugin: LoadLibrary interception and startup configuration

A Dafny model of the core of the FE plugin (`FE/dllmain.cpp`). The plugin is injected into a
graphics application. It replaces the four `LoadLibrary*` entry points, refuses modules named in
a configured block list, and after every forwarded load rechecks whether the per-family
(D3D9 / D3D11), Inet and Window hook sets should be installed. At startup, `Initialize` reads the
INI configuration into clamped, typed settings.

Modules:

- `Wrappers` (`wrappers.dfy`): `Option`. It stands for a configuration lookup that may miss and for a collaborator that may throw.
- `Decimal` (`decimal.dfy`): decimal rendering of the explicit format code for the log, with the reading that inverts it.
- `LoadHooks` (`load_hooks.dfy`): covers `FilterLoadLibraryW`, the plugin-level `InstallHooksIfLoaded` and the four hooks.
  - The four hooks are one function, `Intercept`, over a `Call` datatype with one constructor per hook. Each constructor carries the caller's arguments unchanged.
  - A hook call yields an `Outcome`: the returned `HModule`, the last-error value the hook set (`None` when it left it alone), and an ordered trace of `Event`s.
  - The events are: the call to the saved original, the opaque family/Inet/Window installers, and the two log messages.
  - `GetPathFileNameA/W` and `ToWString` are parameters that may fail (`None` = an exception was thrown). So is the saved original, given as the handle it would return.
- `Config` (`config.dfy`): the pure configuration part of `Initialize`.
  - The store is a map from (section, key) to raw text.
  - The typed parsers of the INI reader, `ConfigTranslateSwapEffect` and the list splitters are parameters.
  - The swap-effect log text is `SwapEffectDescription`: the collaborator's description, or `"default"`.
- `Plugin` (`plugin.dfy`): `Initialize` as a whole. It gives the resolved settings, the context every later hook call reads (block list and loader version), and the ordered host-facing steps: registration, installation, the first recheck, and the proxy overrides.

Constants come from the Windows SDK headers:
- `ERROR_MOD_NOT_FOUND` = 126
- `D3DPRESENT_BACK_BUFFERS_MAX_EX` = 30
- `DXGI_FORMAT_R8G8B8A8_UNORM` = 28
- `DXGI_FORMAT_UNKNOWN` = 0
- `D3DFMT_X8R8G8B8` = 22

Module names are compared exactly: `FilterLoadLibraryW` uses `std::find` on the extracted name (FE/dllmain.cpp:22), with no case folding.
The per-family activation state lives in the family installers, which are opaque here; the recheck records only which installers ran.

## Model

| member | source | states |
|---|---|---|
| LoadHooks.Find | FE/dllmain.cpp:22 | the position `std::find` returns: the first index holding the name, or the list length when no element equals it |
| LoadHooks.FilterLoadLibraryW | FE/dllmain.cpp:20-30 | allows exactly when the file name is not an element of the block list under exact equality; a refusal names an index holding it |
| LoadHooks.InstallHooksIfLoaded | FE/dllmain.cpp:32-43 | runs the D3D9 installer iff the loader is D3D9 and the D3D11 installer iff it is DXGI, never both; the family installer comes first; Inet then Window always end the sequence; nothing but installers runs |
| LoadHooks.Screen | FE/dllmain.cpp:51-61 | the try block's verdict: deny iff the extracted name is blocked; the catch path iff extraction or widening threw |
| LoadHooks.Intercept | FE/dllmain.cpp:45-140 | a hook sets a last error iff the name is blocked, and then it is `ERROR_MOD_NOT_FOUND` with a `NULL` result and only logging; otherwise it returns the original's handle, the original call is in the trace and the trace ends with the full recheck; the exception is logged iff extraction failed |
| LoadHooks.Forward | FE/dllmain.cpp:63-65 | after the logging, the original is called once with the caller's call, then the recheck runs; the hook sets no last error of its own and the original's handle is returned |
| LoadHooks.DenyNeverReachesOriginal | FE/dllmain.cpp:54-57 | a blocked name gives `NULL` and `ERROR_MOD_NOT_FOUND`, no original call and no installer (same at lines 77-80, 103-106, 128-131) |
| LoadHooks.AllowCallsOriginalOnceThenRechecks | FE/dllmain.cpp:63-65 | an unblocked call reaches the original exactly once with its unmodified arguments, preceded only by logging and followed by the recheck; the original's handle is returned whether the load succeeded or not (same at lines 86-88, 112-114, 137-139) |
| LoadHooks.ForwardCallsOnlyTheCall | FE/dllmain.cpp:112 | every original call a forwarding hook makes carries exactly the intercepted arguments, `hFile` and `dwFlags` included for the Ex variants |
| LoadHooks.FailOpen | FE/dllmain.cpp:51-63 | when extraction or widening throws, the exception is logged first and the call is forwarded exactly once; it never yields `ERROR_MOD_NOT_FOUND` |
| LoadHooks.DeniedOrForwarded | FE/dllmain.cpp:45-140 | no partial forwarding: each hook call is fully denied iff its name is blocked and forwarded exactly once iff it is not |
| LoadHooks.SessionForwardsExactlyAllowed | FE/dllmain.cpp:45-140 | over any sequence of loads, the original is reached exactly as many times as there are unblocked calls, and never for a blocked call |
| Config.Clamp | FE/dllmain.cpp:184 | `std::clamp`: the result lies in `[lo, hi]`; an in-range value is kept; a value below or above goes to the nearer bound |
| Config.ClampedI32 | FE/dllmain.cpp:185 | a setting read with its default lies in its range; the raw value is kept when in range and replaced by the nearer bound otherwise; a missing key gives the in-range default |
| Config.ResolveFormat | FE/dllmain.cpp:169-177 | format is automatic iff the key exists and equals "auto"; explicit iff the key exists and is anything else, read with the header fallback; default iff the key is absent |
| Config.FormatDescription | FE/dllmain.cpp:190-201 | the logged text is "auto" iff automatic and "default" iff default; an explicit code is logged in decimal that reads back as the same code |
| Config.SwapEffectDescription | FE/dllmain.cpp:203-209 | the logged swap-effect text is the translator's description of a recognised swap effect, and "default" when the setting was not recognised |
| Config.FormatDescriptionInjective | FE/dllmain.cpp:190-201 | two format choices with the same logged text are the same choice |
| Config.ResolveDxgi | FE/dllmain.cpp:164-188 | DXGI `BufferCount` in [0,8], `DisplayMode` in [-1,1], D3D11 `MaxFrameLatency` in [-1,16]; swap effect from the translator; retry format present iff its key exists |
| Config.ResolveD3D9 | FE/dllmain.cpp:221-243 | D3D9 `BufferCount` in [-1,30], `MaxFrameLatency` in [-1,20], `DisplayMode` in [-1,1]; `ForceAdapter` unclamped with default -1 |
| Config.ResolveNet | FE/dllmain.cpp:249-289 | the port allow list is parsed only when connections are blocked and the host list only when DNS resolution is blocked; otherwise each stays empty; a missing flag means not blocked |
| Config.Resolve | FE/dllmain.cpp:144-256 | every resolved numeric setting lies in its declared range; `ForceBorderless` holds iff its flag is set and the stored (clamped) D3D9 display mode is 1 or the stored DXGI display mode is 0; the block list is the split `DLL.BlockedModules` text; allow lists are empty while their flag is off |
| Config.InRangeSettingsKept | FE/dllmain.cpp:184-233 | each of the six clamped settings equals its configured value whenever that value is already in range |
| Config.MissingKeysGiveDefaults | FE/dllmain.cpp:184-233 | with an empty store every clamped setting is -1 (DXGI buffer count 0), both formats are default, no retry format, no borderless, no network blocking |
| Config.ForceBorderlessFromRaw | FE/dllmain.cpp:255 | in raw terms: `ForceBorderless` iff the flag is set and the configured D3D9 display mode is at least 1 or the configured DXGI display mode is exactly 0 |
| Decimal.DecimalRoundTrip | FE/dllmain.cpp:196 | the decimal text of an integer reads back as that integer |
| Plugin.StartupSteps | FE/dllmain.cpp:266-305 | the four LoadLibrary hooks are registered before the hooks are installed; the first recheck follows; proxy overrides for the loader's family come last, and only for D3D9 or DXGI |
| Plugin.Initialize | FE/dllmain.cpp:144-309 | for every loader and call, a hook running in the started plugin's context refuses the call iff its extracted file name is one the splitter produced from the `DLL.BlockedModules` text; the context carries the host's loader version; initialization reports success when it returns |
| Plugin.ConfiguredModuleIsDenied | FE/dllmain.cpp:245-247 | after startup, a load whose file name is in the split `DLL.BlockedModules` list is fully denied by every hook |
| Plugin.UnlistedModuleIsForwarded | FE/dllmain.cpp:245-247 | after startup, a load whose name is not in that list, or whose name cannot be extracted, is forwarded exactly once |

## Left out

- Logging and config file I/O (`gLog.Open`, `conf.Load`, `MESSAGE`) are not modelled. A config file that fails to load is modelled as the empty store. Log messages appear only as trace events.
- The text parsers of the INI reader (`conf.Get<T>`), `ConfigTranslateSwapEffect`, `GetSwapEffectDesc`, `GetPathFileNameA/W`, `ToWString`, `SplitString` and `SplitStringW` are parameters. Their code is not part of this model.
- The bodies of `D3D9::`, `D3D11::`, `Inet::` and `Window::InstallHooksIfLoaded`, and the activation state machine and network/window filters inside them, are not part of this model. Each is an opaque trace event.
- `FE/mWindow.h` declares types only, so it has no behaviour to model.
- The `FramerateLimit` to `fps_max` conversion (lines 215-219) is floating-point arithmetic, which is not modelled.
- `SetPluginName`/`SetPluginVersion`, the Detours registration internals, `InstallHooks` and `InstallProxyOverrides` are foreign calls into the host. They appear only as ordered steps.
- LoadHooks.SessionForwardsExactlyAllowed: covers calls on one thread in sequence. Concurrent hook calls are not modelled because the code shown has no synchronization.
- LoadHooks.Intercept: an exception thrown by the logging inside `FilterLoadLibraryW` on the refusal path would also be caught and turned into a forwarded load. The model treats logging as infallible and does not cover this case.
- LoadHooks.Intercept: only `std::exception` is caught. Other failures (structured exceptions) are not modelled.
- LoadHooks.Forward: the caller-visible last error after a forwarded load is not modelled. The original sets it, and the opaque installers that run before `return r` may overwrite it; `lastError` records only the hook's own `SetLastError`.
- Plugin.Initialize: returns only when no collaborator throws. Lines 245-289 call `ToWString` and `StrToNative` outside any `try`, and the model treats those calls as infallible there.
- Wide strings are modelled as `string` (sequences of Unicode scalar values), whereas a `wstring` holds UTF-16 code units and Windows file names may contain lone surrogates. Exact equality agrees wherever both representations exist.
- The catch blocks (lines 60, 83, 109, 134) pass `e.what()` to a format string with no conversion, so the exception text is never logged. `LogFilterException` carries no payload for that reason.
- Case-insensitive module-name matching is not modelled because the code compares names exactly.
