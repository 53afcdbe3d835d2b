/** `UseComputeDevices` of app/prefs.py: choosing the Cycles compute
    device type and enabling exactly the devices of that type (and the
    CPUs, when asked for), in the preferences of the running Blender
    version. */
module Prefs {
  import opened Wrappers

  /** A compute device as Cycles lists it; selection writes only `use`. */
  class CDevice {
    const name: string
    const kind: string
    var use: bool

    constructor (name: string, kind: string)
      ensures this.name == name && this.kind == kind && !use
    {
      this.name := name;
      this.kind := kind;
      use := false;
    }
  }

  /** The preferences of the Cycles add-on. `available` are the device
      types the host accepts for `compute_device_type`, and `detected`
      the devices that `get_devices()` loads. */
  class CCyclesPrefs {
    var computeDeviceType: string
    var devices: seq<CDevice>
    const available: set<string>
    const detected: seq<CDevice>

    constructor (computeDeviceType: string, available: set<string>, detected: seq<CDevice>)
      ensures this.computeDeviceType == computeDeviceType && devices == []
      ensures this.available == available && this.detected == detected
    {
      this.computeDeviceType := computeDeviceType;
      devices := [];
      this.available := available;
      this.detected := detected;
    }

    /** Assigning `compute_device_type`: the host refuses a type it does
        not offer, and then nothing changes. */
    method SetComputeDeviceType(t: string) returns (ok: bool)
      modifies this
      ensures ok <==> t in available
      ensures computeDeviceType == if ok then t else old(computeDeviceType)
      ensures devices == old(devices)
    {
      ok := t in available;
      if ok {
        computeDeviceType := t;
      }
    }

    /** `devices.clear()` followed by `get_devices()`. */
    method ReloadDevices()
      modifies this
      ensures devices == detected && computeDeviceType == old(computeDeviceType)
    {
      devices := [];
      devices := detected;
    }
  }

  /** The running Blender: its version and its context's add-on
      preferences, under `preferences` from 2.80 on and under
      `user_preferences` before. */
  class CContext {
    const preferences: map<string, CCyclesPrefs>
    const userPreferences: map<string, CCyclesPrefs>

    constructor (preferences: map<string, CCyclesPrefs>, userPreferences: map<string, CCyclesPrefs>)
      ensures this.preferences == preferences && this.userPreferences == userPreferences
    {
      this.preferences := preferences;
      this.userPreferences := userPreferences;
    }
  }

  /** Versions from 2.80 on keep the add-ons under `preferences`. */
  predicate UsesPreferences(major: nat, minor: nat) {
    major > 2 || (major == 2 && minor >= 80)
  }

  /** The switch is at 2.80: every later version uses `preferences` and
      every earlier one `user_preferences`. */
  lemma VersionSwitch(major: nat, minor: nat)
    ensures UsesPreferences(major, minor) <==> (major, minor) == (2, 80) || Later(major, minor, 2, 80)
  {
  }

  /** Version `a.b` comes after `c.d`. */
  predicate Later(a: nat, b: nat, c: nat, d: nat) {
    a > c || (a == c && b > d)
  }

  /** The add-on preferences of the given version, or none when the
      Cycles add-on is missing there. */
  function CyclesPrefs(ctx: CContext, major: nat, minor: nat): Option<CCyclesPrefs> {
    var addons := if UsesPreferences(major, minor) then ctx.preferences else ctx.userPreferences;
    if "cycles" in addons then Some(addons["cycles"]) else None
  }

  /** What selection may write: the preferences and their devices. */
  function Footprint(p: Option<CCyclesPrefs>): set<object> {
    match p
    case None => {}
    case Some(q) => {q as object} + set d: CDevice | d in q.detected :: d as object
  }

  const MissingCycles := "bpy_prop_collection[key]: key \"cycles\" not found"

  function NotAvailable(t: string): string {
    "Compute device type '" + t + "' not available"
  }

  /** "NONE" asks for the CPU. */
  function Requested(t: string): (r: string)
    ensures r == "CPU" <==> t == "CPU" || t == "NONE"
    ensures r != "CPU" ==> r == t
  {
    if t == "NONE" then "CPU" else t
  }

  /** The value stored in `compute_device_type`: "NONE" for the CPU. */
  function Setting(t: string): (s: string)
    ensures s == "NONE" <==> Requested(t) == "CPU"
  {
    if Requested(t) == "CPU" then "NONE" else Requested(t)
  }

  /** A device is used when it is of the requested type, or a CPU with
      combined CPU compute. */
  predicate Enabled(kind: string, requested: string, combinedCpu: bool) {
    kind == requested || (kind == "CPU" && combinedCpu)
  }

  /** The devices used, in device order. */
  function EnabledDevices(devs: seq<CDevice>, requested: string, combinedCpu: bool): (r: seq<CDevice>)
    ensures |r| <= |devs|
    ensures forall k | 0 <= k < |r| :: r[k] in devs && Enabled(r[k].kind, requested, combinedCpu)
    ensures forall i | 0 <= i < |devs| && Enabled(devs[i].kind, requested, combinedCpu) :: devs[i] in r
  {
    if |devs| == 0 then []
    else
      var n := |devs| - 1;
      EnabledDevices(devs[..n], requested, combinedCpu)
        + (if Enabled(devs[n].kind, requested, combinedCpu) then [devs[n]] else [])
  }

  /** The selection of a list of devices is the selection of its parts in
      turn: the order of the devices is kept. */
  lemma {:induction false} EnabledDevicesConcat(a: seq<CDevice>, b: seq<CDevice>, requested: string, combinedCpu: bool)
    ensures EnabledDevices(a + b, requested, combinedCpu)
         == EnabledDevices(a, requested, combinedCpu) + EnabledDevices(b, requested, combinedCpu)
    decreases |b|
  {
    if |b| == 0 {
      assert a + b == a;
    } else {
      var n := |b| - 1;
      assert (a + b)[..|a + b| - 1] == a + b[..n];
      assert (a + b)[|a + b| - 1] == b[n];
      EnabledDevicesConcat(a, b[..n], requested, combinedCpu);
    }
  }

  /** "NONE" and "CPU" select alike; asking for the CPU uses only CPUs;
      without combined CPU compute, asking for another type uses no
      CPU. */
  lemma RequestRules(devs: seq<CDevice>, t: string, combinedCpu: bool)
    ensures Setting("NONE") == Setting("CPU") == "NONE" && Requested("NONE") == Requested("CPU")
    ensures Requested(t) == "CPU" ==>
      forall d | d in EnabledDevices(devs, Requested(t), combinedCpu) :: d.kind == "CPU"
    ensures Requested(t) != "CPU" && !combinedCpu ==>
      forall d | d in EnabledDevices(devs, Requested(t), combinedCpu) :: d.kind == t
  {
  }

  /** The device loop: each device's `use` set by the rule and the used
      ones collected in order. */
  method SelectDevices(devs: seq<CDevice>, requested: string, combinedCpu: bool) returns (used: seq<CDevice>)
    modifies set d | d in devs :: d
    ensures used == EnabledDevices(devs, requested, combinedCpu)
    ensures forall i | 0 <= i < |devs| :: devs[i].use == Enabled(devs[i].kind, requested, combinedCpu)
  {
    used := [];
    for i := 0 to |devs|
      invariant used == EnabledDevices(devs[..i], requested, combinedCpu)
      invariant forall j | 0 <= j < i :: devs[j].use == Enabled(devs[j].kind, requested, combinedCpu)
    {
      assert devs[..i + 1][..i] == devs[..i];
      var d := devs[i];
      assert d in devs;
      if Enabled(d.kind, requested, combinedCpu) {
        d.use := true;
        used := used + [d];
      } else {
        d.use := false;
      }
    }
    assert devs[..|devs|] == devs;
  }

  /** The error of reading the add-on preferences of `xContext=None`:
      the attribute the running version reads is missing on `None`. */
  function NoContext(major: nat, minor: nat): string {
    "'NoneType' object has no attribute '"
      + (if UsesPreferences(major, minor) then "preferences" else "user_preferences") + "'"
  }

  /** The Cycles preferences reached from an optional context: none
      without a context. */
  function ContextPrefs(ctx: Option<CContext>, major: nat, minor: nat): Option<CCyclesPrefs> {
    if ctx.None? then None else CyclesPrefs(ctx.value, major, minor)
  }

  /** `UseComputeDevices`: the default `xContext=None`, a missing Cycles
      add-on or an unavailable type raises before anything changes;
      otherwise the stored type is set, the devices are reloaded, exactly
      the devices the rule selects are used, and they are returned in
      device order. */
  method UseComputeDevices(ctx: Option<CContext>, major: nat, minor: nat, computeDeviceType: string, combinedCpu: bool)
    returns (r: Result<seq<CDevice>>)
    modifies Footprint(ContextPrefs(ctx, major, minor))
    ensures ctx.None? ==> r == Err(NoContext(major, minor))
    ensures ctx.Some? && CyclesPrefs(ctx.value, major, minor).None? ==> r == Err(MissingCycles)
    ensures ContextPrefs(ctx, major, minor).Some? ==> var p := ContextPrefs(ctx, major, minor).value;
      var req := Requested(computeDeviceType);
      && (r.Err? <==> req != "CPU" && req !in p.available)
      && (r.Err? ==> && r.msg == NotAvailable(req)
                     && p.computeDeviceType == old(p.computeDeviceType) && p.devices == old(p.devices)
                     && forall d | d in p.detected :: d.use == old(d.use))
      && (r.Ok? ==> && p.computeDeviceType == Setting(computeDeviceType)
                    && p.devices == p.detected
                    && (forall i | 0 <= i < |p.devices| :: p.devices[i].use == Enabled(p.devices[i].kind, req, combinedCpu))
                    && r.value == EnabledDevices(p.devices, req, combinedCpu)
                    && forall d :: d in r.value <==> d in p.devices && d.use)
  {
    if ctx.None? {
      return Err(NoContext(major, minor));
    }
    var cycles := CyclesPrefs(ctx.value, major, minor);
    if cycles.None? {
      return Err(MissingCycles);
    }
    var p := cycles.value;
    var req := Requested(computeDeviceType);
    if req == "CPU" {
      p.computeDeviceType := "NONE";
    } else {
      var ok := p.SetComputeDeviceType(req);
      if !ok {
        return Err(NotAvailable(req));
      }
    }
    p.ReloadDevices();
    var used := SelectDevices(p.devices, req, combinedCpu);
    return Ok(used);
  }
}
