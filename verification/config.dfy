/** The pure part of the FE plugin's `Initialize`: reading the INI store into
    resolved settings. Clamping into fixed ranges, the auto/explicit/default
    back-buffer format choice, the derived `ForceBorderless` flag, and the
    allow lists that are parsed only when their block flag is on.

    The store is a map from (section, key) to the raw text. Parsing text into
    numbers and booleans, swap-effect translation and list splitting belong to
    collaborators whose code is not part of this model; they are parameters. */
module Config {

  import opened Wrappers
  import Decimal

  type I32 = x: int | -0x8000_0000 <= x < 0x8000_0000
  type U32 = x: int | 0 <= x < 0x1_0000_0000

  /** `D3DPRESENT_BACK_BUFFERS_MAX_EX` from the Direct3D 9 headers. */
  const BackBuffersMaxEx: I32 := 30
  /** `DXGI_FORMAT_R8G8B8A8_UNORM`, the explicit DXGI format's fallback. */
  const DxgiFormatR8G8B8A8Unorm: I32 := 28
  /** `DXGI_FORMAT_UNKNOWN`, the retry format's fallback. */
  const DxgiFormatUnknown: I32 := 0
  /** `D3DFMT_X8R8G8B8`, the explicit D3D9 format's fallback. */
  const D3DFmtX8R8G8B8: I32 := 22

  datatype Key = Key(section: string, name: string)

  /** The loaded configuration file: raw text per key. A file that failed to
      load is the empty store. */
  type Store = map<Key, string>

  /** Collaborators used while reading the store. `None` from a parser means
      the text did not parse, and the getter falls back to its default. */
  datatype Externals = Externals(
    toI32: string -> Option<I32>,
    toU32: string -> Option<U32>,
    toBool: string -> Option<bool>,
    translateSwapEffect: string -> Option<int>,
    splitWide: string -> seq<string>,
    splitPorts: string -> seq<int>)

  function GetText(store: Store, section: string, name: string, default: string): string {
    if Key(section, name) in store then store[Key(section, name)] else default
  }

  function GetI32(store: Store, ext: Externals, section: string, name: string, default: I32): I32 {
    if Key(section, name) in store then ext.toI32(store[Key(section, name)]).GetOr(default) else default
  }

  function GetU32(store: Store, ext: Externals, section: string, name: string, default: U32): U32 {
    if Key(section, name) in store then ext.toU32(store[Key(section, name)]).GetOr(default) else default
  }

  function GetBool(store: Store, ext: Externals, section: string, name: string): bool {
    if Key(section, name) in store then ext.toBool(store[Key(section, name)]).GetOr(false) else false
  }

  /** `std::clamp`: the nearest value of `[lo, hi]`. */
  function Clamp(v: int, lo: int, hi: int): (r: int)
    requires lo <= hi
    ensures lo <= r <= hi
    ensures lo <= v <= hi ==> r == v
    ensures v < lo ==> r == lo
    ensures v > hi ==> r == hi
  {
    if v < lo then lo else if hi < v then hi else v
  }

  /** A signed setting read with default `default` and clamped into
      `[lo, hi]`. */
  function ClampedI32(store: Store, ext: Externals, section: string, name: string, default: I32, lo: I32, hi: I32): (r: I32)
    requires lo <= hi
    ensures lo <= r <= hi
    ensures Key(section, name) !in store && lo <= default <= hi ==> r == default
    ensures var raw := GetI32(store, ext, section, name, default);
      (lo <= raw <= hi ==> r == raw) && (raw < lo ==> r == lo) && (raw > hi ==> r == hi)
  {
    Clamp(GetI32(store, ext, section, name, default), lo, hi)
  }

  /** How the back-buffer format is chosen: left to the game, detected
      automatically, or forced to a numeric format code. */
  datatype FormatChoice = DefaultFormat | AutoFormat | ExplicitFormat(code: I32)

  /** The `Format` key of `section`: absent gives the default, the text
      "auto" selects detection, anything else is read as a format code. */
  function ResolveFormat(store: Store, ext: Externals, section: string, fallback: I32): (f: FormatChoice)
    ensures f.DefaultFormat? <==> Key(section, "Format") !in store
    ensures f.AutoFormat? <==> Key(section, "Format") in store && store[Key(section, "Format")] == "auto"
    ensures f.ExplicitFormat? <==> Key(section, "Format") in store && store[Key(section, "Format")] != "auto"
    ensures f.ExplicitFormat? ==> f.code == ext.toI32(store[Key(section, "Format")]).GetOr(fallback)
  {
    if Key(section, "Format") !in store then DefaultFormat
    else if GetText(store, section, "Format", "") == "auto" then AutoFormat
    else ExplicitFormat(GetI32(store, ext, section, "Format", fallback))
  }

  /** The format text written to the startup log. */
  function FormatDescription(f: FormatChoice): (s: string)
    ensures s == "auto" <==> f.AutoFormat?
    ensures s == "default" <==> f.DefaultFormat?
    ensures f.ExplicitFormat? ==> Decimal.FromDecimal(s) == Some(f.code as int)
  {
    match f
    case DefaultFormat => "default"
    case AutoFormat => "auto"
    case ExplicitFormat(c) =>
      Decimal.DecimalRoundTrip(c);
      Decimal.ToDecimal(c)
  }

  /** The swap-effect text written to the startup log: the collaborator's
      description of a recognised swap effect, "default" otherwise. */
  function SwapEffectDescription(swapEffect: Option<int>, describe: int -> string): (s: string)
    ensures swapEffect.None? ==> s == "default"
    ensures swapEffect.Some? ==> s == describe(swapEffect.value)
  {
    match swapEffect
    case Some(c) => describe(c)
    case None => "default"
  }

  datatype DxgiSettings = DxgiSettings(
    swapEffect: Option<int>,
    format: FormatChoice,
    retryFormat: Option<I32>,
    bufferCount: U32,
    displayMode: I32,
    enableTearing: bool,
    explicitRebind: bool,
    maxFrameLatency: I32)

  datatype D3D9Settings = D3D9Settings(
    enableFlip: bool,
    presentIntervalImmediate: bool,
    bufferCount: I32,
    maxFrameLatency: I32,
    createTextureUsageDynamic: bool,
    createTextureClearUsageFlags: U32,
    createIndexBufferUsageDynamic: bool,
    createVertexBufferUsageDynamic: bool,
    createCubeTextureUsageDynamic: bool,
    createVolumeTextureUsageDynamic: bool,
    forceAdapter: I32,
    displayMode: I32,
    format: FormatChoice)

  datatype NetSettings = NetSettings(
    blockConnections: bool,
    blockListen: bool,
    blockInternetOpen: bool,
    blockDNSResolve: bool,
    allowedPorts: seq<int>,
    allowedHosts: seq<string>)

  datatype WindowSettings = WindowSettings(
    borderlessUpscaling: bool,
    forceBorderless: bool,
    cursorFix: bool)

  datatype Settings = Settings(
    dxgi: DxgiSettings,
    d3d9: D3D9Settings,
    blockedModules: seq<string>,
    net: NetSettings,
    window: WindowSettings)

  /** The DXGI section (the D3D11 frame latency is read from it too). */
  function ResolveDxgi(store: Store, ext: Externals): (d: DxgiSettings)
    ensures 0 <= d.bufferCount <= 8
    ensures -1 <= d.displayMode <= 1
    ensures -1 <= d.maxFrameLatency <= 16
    ensures d.swapEffect == ext.translateSwapEffect(GetText(store, "DXGI", "SwapEffect", "default"))
    ensures d.format == ResolveFormat(store, ext, "DXGI", DxgiFormatR8G8B8A8Unorm)
    ensures d.retryFormat.Some? <==> Key("DXGI", "CreateShaderResourceViewRetryFormat") in store
  {
    DxgiSettings(
      swapEffect := ext.translateSwapEffect(GetText(store, "DXGI", "SwapEffect", "default")),
      format := ResolveFormat(store, ext, "DXGI", DxgiFormatR8G8B8A8Unorm),
      retryFormat :=
        if Key("DXGI", "CreateShaderResourceViewRetryFormat") in store
        then Some(GetI32(store, ext, "DXGI", "CreateShaderResourceViewRetryFormat", DxgiFormatUnknown))
        else None,
      bufferCount := Clamp(GetU32(store, ext, "DXGI", "BufferCount", 0), 0, 8),
      displayMode := ClampedI32(store, ext, "DXGI", "DisplayMode", -1, -1, 1),
      enableTearing := GetBool(store, ext, "DXGI", "EnableTearing"),
      explicitRebind := GetBool(store, ext, "DXGI", "ExplicitRebind"),
      maxFrameLatency := ClampedI32(store, ext, "DXGI", "MaxFrameLatency", -1, -1, 16))
  }

  function ResolveD3D9(store: Store, ext: Externals): (d: D3D9Settings)
    ensures -1 <= d.bufferCount <= BackBuffersMaxEx
    ensures -1 <= d.maxFrameLatency <= 20
    ensures -1 <= d.displayMode <= 1
    ensures d.forceAdapter == GetI32(store, ext, "D3D9", "ForceAdapter", -1)
    ensures d.format == ResolveFormat(store, ext, "D3D9", D3DFmtX8R8G8B8)
  {
    D3D9Settings(
      enableFlip := GetBool(store, ext, "D3D9", "EnableFlip"),
      presentIntervalImmediate := GetBool(store, ext, "D3D9", "PresentIntervalImmediate"),
      bufferCount := ClampedI32(store, ext, "D3D9", "BufferCount", -1, -1, BackBuffersMaxEx),
      maxFrameLatency := ClampedI32(store, ext, "D3D9", "MaxFrameLatency", -1, -1, 20),
      createTextureUsageDynamic := GetBool(store, ext, "D3D9", "CreateTextureUsageDynamic"),
      createTextureClearUsageFlags := GetU32(store, ext, "D3D9", "CreateTextureClearUsageFlags", 0),
      createIndexBufferUsageDynamic := GetBool(store, ext, "D3D9", "CreateIndexBufferUsageDynamic"),
      createVertexBufferUsageDynamic := GetBool(store, ext, "D3D9", "CreateVertexBufferUsageDynamic"),
      createCubeTextureUsageDynamic := GetBool(store, ext, "D3D9", "CreateCubeTextureUsageDynamic"),
      createVolumeTextureUsageDynamic := GetBool(store, ext, "D3D9", "CreateVolumeTextureUsageDynamic"),
      forceAdapter := GetI32(store, ext, "D3D9", "ForceAdapter", -1),
      displayMode := ClampedI32(store, ext, "D3D9", "DisplayMode", -1, -1, 1),
      format := ResolveFormat(store, ext, "D3D9", D3DFmtX8R8G8B8))
  }

  /** The Net section. Each allow list is read only when its block flag is
      on; otherwise it stays empty. */
  function ResolveNet(store: Store, ext: Externals): (n: NetSettings)
    ensures n.blockConnections ==> n.allowedPorts == ext.splitPorts(GetText(store, "Net", "AllowedPorts", ""))
    ensures !n.blockConnections ==> n.allowedPorts == []
    ensures n.blockDNSResolve ==> n.allowedHosts == ext.splitWide(GetText(store, "Net", "AllowedHosts", ""))
    ensures !n.blockDNSResolve ==> n.allowedHosts == []
    ensures Key("Net", "BlockConnections") !in store ==> !n.blockConnections && n.allowedPorts == []
    ensures Key("Net", "BlockDNSResolve") !in store ==> !n.blockDNSResolve && n.allowedHosts == []
  {
    var blockConnections := GetBool(store, ext, "Net", "BlockConnections");
    var blockDNSResolve := GetBool(store, ext, "Net", "BlockDNSResolve");
    NetSettings(
      blockConnections := blockConnections,
      blockListen := GetBool(store, ext, "Net", "BlockListen"),
      blockInternetOpen := GetBool(store, ext, "Net", "BlockInternetOpen"),
      blockDNSResolve := blockDNSResolve,
      allowedPorts := if blockConnections then ext.splitPorts(GetText(store, "Net", "AllowedPorts", "")) else [],
      allowedHosts := if blockDNSResolve then ext.splitWide(GetText(store, "Net", "AllowedHosts", "")) else [])
  }

  /** The Window section. Borderless is forced only when asked for and one of
      the two display modes, after clamping, selects a compatible mode. */
  function ResolveWindow(store: Store, ext: Externals, dxgi: DxgiSettings, d3d9: D3D9Settings): (w: WindowSettings)
    ensures w.forceBorderless <==>
      GetBool(store, ext, "Window", "ForceBorderless") && (d3d9.displayMode == 1 || dxgi.displayMode == 0)
  {
    WindowSettings(
      borderlessUpscaling := GetBool(store, ext, "Window", "BorderlessUpscaling"),
      forceBorderless := GetBool(store, ext, "Window", "ForceBorderless") && (d3d9.displayMode == 1 || dxgi.displayMode == 0),
      cursorFix := GetBool(store, ext, "Window", "CursorFix"))
  }

  /** Every setting `Initialize` resolves from the store. */
  function Resolve(store: Store, ext: Externals): (s: Settings)
    ensures 0 <= s.dxgi.bufferCount <= 8
    ensures -1 <= s.dxgi.displayMode <= 1
    ensures -1 <= s.dxgi.maxFrameLatency <= 16
    ensures -1 <= s.d3d9.maxFrameLatency <= 20
    ensures -1 <= s.d3d9.displayMode <= 1
    ensures -1 <= s.d3d9.bufferCount <= BackBuffersMaxEx
    ensures s.window.forceBorderless <==>
      GetBool(store, ext, "Window", "ForceBorderless") && (s.d3d9.displayMode == 1 || s.dxgi.displayMode == 0)
    ensures s.blockedModules == ext.splitWide(GetText(store, "DLL", "BlockedModules", ""))
    ensures !s.net.blockConnections ==> s.net.allowedPorts == []
    ensures !s.net.blockDNSResolve ==> s.net.allowedHosts == []
  {
    var dxgi := ResolveDxgi(store, ext);
    var d3d9 := ResolveD3D9(store, ext);
    Settings(
      dxgi := dxgi,
      d3d9 := d3d9,
      blockedModules := ext.splitWide(GetText(store, "DLL", "BlockedModules", "")),
      net := ResolveNet(store, ext),
      window := ResolveWindow(store, ext, dxgi, d3d9))
  }

  /** A configured value that already lies in its declared range is used
      unchanged. */
  lemma InRangeSettingsKept(store: Store, ext: Externals)
    ensures var s := Resolve(store, ext);
      var dxgiBuffers := GetU32(store, ext, "DXGI", "BufferCount", 0);
      var dxgiMode := GetI32(store, ext, "DXGI", "DisplayMode", -1);
      var d3d11Latency := GetI32(store, ext, "DXGI", "MaxFrameLatency", -1);
      var d3d9Buffers := GetI32(store, ext, "D3D9", "BufferCount", -1);
      var d3d9Latency := GetI32(store, ext, "D3D9", "MaxFrameLatency", -1);
      var d3d9Mode := GetI32(store, ext, "D3D9", "DisplayMode", -1);
      && (dxgiBuffers <= 8 ==> s.dxgi.bufferCount == dxgiBuffers)
      && (-1 <= dxgiMode <= 1 ==> s.dxgi.displayMode == dxgiMode)
      && (-1 <= d3d11Latency <= 16 ==> s.dxgi.maxFrameLatency == d3d11Latency)
      && (-1 <= d3d9Buffers <= BackBuffersMaxEx ==> s.d3d9.bufferCount == d3d9Buffers)
      && (-1 <= d3d9Latency <= 20 ==> s.d3d9.maxFrameLatency == d3d9Latency)
      && (-1 <= d3d9Mode <= 1 ==> s.d3d9.displayMode == d3d9Mode)
  {
  }

  /** A missing key resolves every clamped setting to -1 (0 for the DXGI
      buffer count), which the consumers read as "leave it to the game". */
  lemma MissingKeysGiveDefaults(ext: Externals)
    ensures var s := Resolve(map[], ext);
      && s.dxgi.bufferCount == 0 && s.dxgi.displayMode == -1 && s.dxgi.maxFrameLatency == -1
      && s.d3d9.bufferCount == -1 && s.d3d9.maxFrameLatency == -1 && s.d3d9.displayMode == -1
      && s.d3d9.forceAdapter == -1
      && s.dxgi.format == DefaultFormat && s.d3d9.format == DefaultFormat
      && s.dxgi.retryFormat == None
      && !s.window.forceBorderless
      && !s.net.blockConnections && !s.net.blockListen && !s.net.blockInternetOpen && !s.net.blockDNSResolve
  {
  }

  /** `ForceBorderless` in terms of the raw configured values: the flag, and
      a D3D9 display mode of at least 1 or a DXGI display mode of exactly 0. */
  lemma ForceBorderlessFromRaw(store: Store, ext: Externals)
    ensures Resolve(store, ext).window.forceBorderless <==>
      && GetBool(store, ext, "Window", "ForceBorderless")
      && (GetI32(store, ext, "D3D9", "DisplayMode", -1) >= 1 || GetI32(store, ext, "DXGI", "DisplayMode", -1) == 0)
  {
  }

  /** The logged format text tells the three choices apart, and two explicit
      formats only when their codes differ. */
  lemma FormatDescriptionInjective(f: FormatChoice, g: FormatChoice)
    requires FormatDescription(f) == FormatDescription(g)
    ensures f == g
  {
    if f.ExplicitFormat? && g.ExplicitFormat? {
      Decimal.DecimalInjective(f.code, g.code);
    }
  }
}
