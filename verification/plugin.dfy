/** The FE plugin's `Initialize` entry point as a whole: resolve the settings,
    register the four LoadLibrary replacements, install them, run one
    activation recheck, then let the matching family install its proxy
    overrides. The resulting `Context` is what every later hook call reads. */
module Plugin {

  import opened Wrappers
  import LoadHooks
  import Config

  /** The entry points the plugin redirects. */
  datatype Target = LoadLibraryATarget | LoadLibraryWTarget | LoadLibraryExATarget | LoadLibraryExWTarget

  /** What `Initialize` asks of the host, in order. */
  datatype Step =
    | RegisterHook(target: Target)
    | InstallRegisteredHooks
    | Recheck(installers: seq<LoadHooks.Event>)
    | InstallProxyOverrides(version: LoadHooks.LoaderVersion)

  datatype Startup = Startup(settings: Config.Settings, context: LoadHooks.Context, steps: seq<Step>, ok: bool)

  const Registrations: seq<Step> :=
    [RegisterHook(LoadLibraryATarget), RegisterHook(LoadLibraryWTarget),
     RegisterHook(LoadLibraryExATarget), RegisterHook(LoadLibraryExWTarget)]

  function ProxyOverrides(version: LoadHooks.LoaderVersion): seq<Step> {
    if version == LoadHooks.OtherLoader then [] else [InstallProxyOverrides(version)]
  }

  /** The host-facing steps of `Initialize`, in order. */
  function StartupSteps(version: LoadHooks.LoaderVersion): (steps: seq<Step>)
    ensures |steps| == 6 || |steps| == 7
    ensures steps[..4] == Registrations
    ensures steps[4] == InstallRegisteredHooks
    ensures steps[5] == Recheck(LoadHooks.InstallHooksIfLoaded(version))
    ensures |steps| == 7 <==> version != LoadHooks.OtherLoader
    ensures |steps| == 7 ==> steps[6] == InstallProxyOverrides(version)
  {
    Registrations + [InstallRegisteredHooks, Recheck(LoadHooks.InstallHooksIfLoaded(version))] + ProxyOverrides(version)
  }

  function Initialize(store: Config.Store, ext: Config.Externals, version: LoadHooks.LoaderVersion): (r: Startup)
    ensures r.ok
    ensures r.settings == Config.Resolve(store, ext)
    ensures r.context.blocked == r.settings.blockedModules && r.context.version == version
    ensures r.steps == StartupSteps(version)
    ensures forall loader: LoadHooks.Loader, call: LoadHooks.Call ::
      LoadHooks.Blocked(r.context, loader, call) <==>
        && LoadHooks.FileName(loader, call).Some?
        && LoadHooks.FileName(loader, call).value in ext.splitWide(Config.GetText(store, "DLL", "BlockedModules", ""))
  {
    var settings := Config.Resolve(store, ext);
    Startup(settings, LoadHooks.Context(settings.blockedModules, version), StartupSteps(version), true)
  }

  /** End to end: a module named in `DLL.BlockedModules` is refused by every
      LoadLibrary hook once the plugin has started, provided the file-name
      extraction of the call succeeds and yields that name. */
  lemma ConfiguredModuleIsDenied(
    store: Config.Store, ext: Config.Externals, version: LoadHooks.LoaderVersion,
    loader: LoadHooks.Loader, call: LoadHooks.Call)
    requires LoadHooks.FileName(loader, call).Some?
    requires LoadHooks.FileName(loader, call).value in ext.splitWide(Config.GetText(store, "DLL", "BlockedModules", ""))
    ensures var o := LoadHooks.Intercept(Initialize(store, ext, version).context, loader, call);
      LoadHooks.FullyDenied(o)
  {
    LoadHooks.DenyNeverReachesOriginal(Initialize(store, ext, version).context, loader, call);
  }

  /** End to end: once the plugin has started, a load is forwarded exactly
      once when its file name cannot be extracted or is not among the names
      the splitter produced from the `DLL.BlockedModules` text (the empty
      text when the key is absent). */
  lemma UnlistedModuleIsForwarded(
    store: Config.Store, ext: Config.Externals, version: LoadHooks.LoaderVersion,
    loader: LoadHooks.Loader, call: LoadHooks.Call)
    requires LoadHooks.FileName(loader, call).None?
      || LoadHooks.FileName(loader, call).value !in ext.splitWide(Config.GetText(store, "DLL", "BlockedModules", ""))
    ensures LoadHooks.ForwardedOnce(
      LoadHooks.Intercept(Initialize(store, ext, version).context, loader, call), call, loader.original, version)
  {
    LoadHooks.AllowCallsOriginalOnceThenRechecks(Initialize(store, ext, version).context, loader, call);
  }
}
