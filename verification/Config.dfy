/**
 internal/config/config.go: the device table, its two text formats and the
 in-place normalisation every start-up runs.
 */
module Config {
  import opened Wrappers
  import opened GoStrings
  import opened Decimal

  datatype Device = Device(name: string, mac: string, ip: string, iface: string, broadcast: string, port: int)

  /** What a device inherits where its own entry is silent. */
  datatype Shared = Shared(iface: string, broadcast: string, port: int)

  /** The `wol` section. */
  datatype WoL = WoL(macs: seq<string>, devices: seq<Device>, shared: Shared)

  /** The environment variables that reach the `wol` section, and the drop-pending switch. */
  datatype Env = Env(macs: string, devices: string, iface: string, broadcast: string, port: string,
                     dropPending: Option<bool>)

  // ---------- the two list formats ----------

  /** A positive decimal number, or 0. */
  function PortOf(text: string): (port: int)
    ensures port >= 0
  {
    match Atoi(text)
    case Some(p) => if p > 0 then p else 0
    case None => 0
  }

  function FieldAt(fields: seq<string>, i: nat): string {
    if i < |fields| then TrimSpace(fields[i]) else ""
  }

  function DeviceOf(fields: seq<string>): Device {
    Device(FieldAt(fields, 0), FieldAt(fields, 1), FieldAt(fields, 2), FieldAt(fields, 3), FieldAt(fields, 4),
           PortOf(FieldAt(fields, 5)))
  }

  /** The device one record stands for, if any. */
  function RecordDevices(record: string): seq<Device> {
    var device := DeviceOf(Split(TrimSpace(record), '|'));
    if device.mac == "" then [] else [device]
  }

  function AllRecordDevices(records: seq<string>): seq<Device> {
    if records == [] then [] else
    AllRecordDevices(records[..|records| - 1]) + RecordDevices(records[|records| - 1])
  }

  function DevicesOf(value: string): seq<Device> {
    AllRecordDevices(Split(value, ';'))
  }

  // ---------- what the two formats mean ----------

  lemma {:induction false} RecordsAppend(a: seq<string>, b: seq<string>)
    ensures AllRecordDevices(a + b) == AllRecordDevices(a) + AllRecordDevices(b)
  {
    if b == [] {
      assert a + b == a;
    } else {
      var n := |b| - 1;
      assert (a + b)[..|a + b| - 1] == a + b[..n] && (a + b)[|a| + n] == b[n];
      RecordsAppend(a, b[..n]);
      assert AllRecordDevices(a + b) == AllRecordDevices(a + b[..n]) + RecordDevices(b[n]);
    }
  }

  /** A ';' separates: what stands on either side of it is read by itself. */
  lemma DevicesAcrossSemicolon(a: string, b: string)
    ensures DevicesOf(a + ";" + b) == DevicesOf(a) + DevicesOf(b)
  {
    SplitAtSep(a, ';', b);
    RecordsAppend(Split(a, ';'), Split(b, ';'));
  }

  /** Field `i` of a record, "" past the end. */
  function FieldText(record: string, i: nat): string {
    if i < |Split(record, '|')| then TrimSpace(Split(record, '|')[i]) else ""
  }

  lemma FieldOfTrimmed(record: string, i: nat)
    ensures FieldAt(Split(TrimSpace(record), '|'), i) == FieldText(record, i)
  {
    SplitOfTrimSpace(record, '|');
  }

  /**
   One record is a device when it has a MAC address: name, MAC, IP, interface, broadcast address and
   port stand between the bars in this order, and a port that is no positive number is 0.
   */
  lemma RecordMeaning(record: string)
    requires ';' !in record
    ensures DevicesOf(record) == RecordDevices(record)
    ensures if FieldText(record, 1) == "" then DevicesOf(record) == [] else
            && |DevicesOf(record)| == 1
            && var d := DevicesOf(record)[0];
               && d.name == FieldText(record, 0) && d.mac == FieldText(record, 1) && d.ip == FieldText(record, 2)
               && d.iface == FieldText(record, 3) && d.broadcast == FieldText(record, 4)
               && d.port == match Atoi(FieldText(record, 5)) case Some(p) => (if p > 0 then p else 0) case None => 0
  {
    SplitWithout(record, ';');
    assert [record][..0] == [];
    FieldOfTrimmed(record, 0);
    FieldOfTrimmed(record, 1);
    FieldOfTrimmed(record, 2);
    FieldOfTrimmed(record, 3);
    FieldOfTrimmed(record, 4);
    FieldOfTrimmed(record, 5);
  }

  method ParseDevices(value: string) returns (devices: seq<Device>)
    ensures devices == DevicesOf(value)
  {
    devices := [];
    var records := Split(value, ';');
    for i := 0 to |records|
      invariant devices == AllRecordDevices(records[..i])
    {
      assert records[..i + 1][..i] == records[..i];
      var record := TrimSpace(records[i]);
      if record == "" {
        assert RecordDevices(records[i]) == [];
        continue;
      }
      var device := ParseRecord(record);
      if device.mac != "" {
        devices := devices + [device];
      }
    }
    assert records[..|records|] == records;
  }

  /** The fields of one record, those past the end left empty. */
  method ParseRecord(record: string) returns (device: Device)
    ensures device == DeviceOf(Split(record, '|'))
  {
    var fields := Split(record, '|');
    device := Device("", "", "", "", "", 0);
    if |fields| > 0 {
      device := device.(name := TrimSpace(fields[0]));
    }
    if |fields| > 1 {
      device := device.(mac := TrimSpace(fields[1]));
    }
    if |fields| > 2 {
      device := device.(ip := TrimSpace(fields[2]));
    }
    if |fields| > 3 {
      device := device.(iface := TrimSpace(fields[3]));
    }
    if |fields| > 4 {
      device := device.(broadcast := TrimSpace(fields[4]));
    }
    if |fields| > 5 {
      var p := Atoi(TrimSpace(fields[5]));
      if p.Some? && p.value > 0 {
        device := device.(port := p.value);
      }
    }
  }

  /** The items that are not blank, trimmed. */
  function TrimmedItems(items: seq<string>): seq<string> {
    if items == [] then [] else
    var t := TrimSpace(items[|items| - 1]);
    TrimmedItems(items[..|items| - 1]) + if t != "" then [t] else []
  }

  function CsvOf(s: string): seq<string> {
    TrimmedItems(Split(s, ','))
  }

  lemma {:induction false} ItemsAppend(a: seq<string>, b: seq<string>)
    ensures TrimmedItems(a + b) == TrimmedItems(a) + TrimmedItems(b)
  {
    if b == [] {
      assert a + b == a;
    } else {
      var n := |b| - 1;
      assert (a + b)[..|a + b| - 1] == a + b[..n];
      ItemsAppend(a, b[..n]);
    }
  }

  /** A ',' separates, and an item is read trimmed, or not at all when it is blank. */
  lemma CsvMeaning(a: string, b: string)
    ensures CsvOf(a + "," + b) == CsvOf(a) + CsvOf(b)
    ensures ',' !in a ==> CsvOf(a) == if TrimSpace(a) == "" then [] else [TrimSpace(a)]
  {
    SplitAtSep(a, ',', b);
    ItemsAppend(Split(a, ','), Split(b, ','));
    if ',' !in a {
      SplitWithout(a, ',');
      assert [a][..0] == [];
    }
  }

  method SplitCSV(s: string) returns (out: seq<string>)
    ensures out == CsvOf(s)
  {
    out := [];
    var parts := Split(s, ',');
    for i := 0 to |parts|
      invariant out == TrimmedItems(parts[..i])
    {
      assert parts[..i + 1][..i] == parts[..i];
      var t := TrimSpace(parts[i]);
      if t != "" {
        out := out + [t];
      }
    }
    assert parts[..|parts|] == parts;
  }

  // ---------- defaults, environment, normalisation ----------

  function WithDefaults(w: WoL): WoL {
    w.(shared := Shared(if w.shared.iface == "" then "br-lan" else w.shared.iface,
                        if w.shared.broadcast == "" then "255.255.255.255" else w.shared.broadcast,
                        if w.shared.port == 0 then 9 else w.shared.port))
  }

  /** A text that is not a positive number leaves the port alone. */
  function PortFrom(text: string, before: int): (port: int)
    ensures port > 0 || port == before
  {
    if PortOf(text) > 0 then PortOf(text) else before
  }

  function WithEnv(w: WoL, env: Env): WoL {
    WoL(if env.macs != "" then CsvOf(env.macs) else w.macs,
        if env.devices != "" then DevicesOf(env.devices) else w.devices,
        SharedWithEnv(w.shared, env))
  }

  function SharedWithEnv(shared: Shared, env: Env): Shared {
    Shared(if env.iface != "" then env.iface else shared.iface,
           if env.broadcast != "" then env.broadcast else shared.broadcast,
           PortFrom(env.port, shared.port))
  }

  function DefaultName(i: nat): (name: string)
    ensures TrimSpace(name) != ""
  {
    var name := "设备" + FormatInt(i + 1);
    TrimSpaceKeeps(name, '设');
    assert name[0] == '设';
    name
  }

  /** Devices made up for a bare MAC list; blank entries still use up their number. */
  function SeededDevices(macs: seq<string>): seq<Device> {
    if macs == [] then [] else
    var i := |macs| - 1;
    var mac := TrimSpace(macs[i]);
    SeededDevices(macs[..i]) + if mac == "" then [] else [Device(DefaultName(i), mac, "", "", "", 0)]
  }

  lemma SeededOneMore(macs: seq<string>, i: nat)
    requires i < |macs|
    ensures var mac := TrimSpace(macs[i]);
            SeededDevices(macs[..i + 1])
            == if mac == "" then SeededDevices(macs[..i])
               else SeededDevices(macs[..i]) + [Device(DefaultName(i), mac, "", "", "", 0)]
  {
    assert macs[..i + 1][..i] == macs[..i];
  }

  function NormalDevice(d: Device, i: nat, shared: Shared): Device {
    d.(name := if TrimSpace(d.name) == "" then DefaultName(i) else d.name,
       iface := if d.iface == "" then shared.iface else d.iface,
       broadcast := if d.broadcast == "" then shared.broadcast else d.broadcast,
       port := if d.port == 0 then shared.port else d.port)
  }

  function NormalDevices(devices: seq<Device>, shared: Shared): (r: seq<Device>)
    ensures |r| == |devices|
  {
    seq(|devices|, i requires 0 <= i < |devices| => NormalDevice(devices[i], i, shared))
  }

  /** The MAC addresses that are not empty, in device order. */
  function PresentMacs(devices: seq<Device>): seq<string> {
    if devices == [] then [] else
    var mac := devices[|devices| - 1].mac;
    PresentMacs(devices[..|devices| - 1]) + if mac != "" then [mac] else []
  }

  function Normalized(w: WoL): WoL {
    var devices := NormalDevices(if w.devices == [] then SeededDevices(w.macs) else w.devices, w.shared);
    w.(devices := devices, macs := PresentMacs(devices))
  }

  /** A device nothing is missing from except, possibly, its MAC address. */
  predicate Complete(d: Device) {
    TrimSpace(d.name) != "" && d.iface != "" && d.broadcast != "" && d.port != 0
  }

  /** Whatever the file and the environment say, every device ends up complete. */
  lemma LoadedDevicesComplete(file: WoL, env: Env)
    ensures var w := Normalized(WithEnv(WithDefaults(file), env));
            && (forall i | 0 <= i < |w.devices| :: Complete(w.devices[i]))
            && w.macs == PresentMacs(w.devices)
  {
    var w := WithEnv(WithDefaults(file), env);
    assert w.shared.iface != "" && w.shared.broadcast != "" && w.shared.port != 0;
  }

  /** Start-up leaves a device of a given table as it was exactly when nothing was missing from it. */
  lemma NormalizeTouchesOnlyIncomplete(file: WoL, env: Env, i: nat)
    requires i < |WithEnv(WithDefaults(file), env).devices|
    ensures var w := WithEnv(WithDefaults(file), env);
            && |Normalized(w).devices| == |w.devices|
            && (Normalized(w).devices[i] == w.devices[i] <==> Complete(w.devices[i]))
  {
    var w := WithEnv(WithDefaults(file), env);
    assert w.shared.iface != "" && w.shared.broadcast != "" && w.shared.port != 0;
    assert TrimSpace(DefaultName(i)) != "";
  }

  /** The first of two texts, or the second when the first is empty. */
  function FirstGiven(a: string, b: string): string {
    if a != "" then a else b
  }

  /** A text that stands for a positive number, or nothing. */
  function PositiveNumber(text: string): Option<int> {
    match Atoi(text)
    case Some(p) => if p > 0 then Some(p) else None
    case None => None
  }

  /** What start-up fills a device's gaps with: the environment before the file before the built-in value. */
  ghost predicate Filled(d: Device, own: Device, file: WoL, env: Env) {
    && d.mac == own.mac && d.ip == own.ip
    && d.iface == FirstGiven(own.iface, FirstGiven(env.iface, FirstGiven(file.shared.iface, "br-lan")))
    && d.broadcast
       == FirstGiven(own.broadcast, FirstGiven(env.broadcast, FirstGiven(file.shared.broadcast, "255.255.255.255")))
    && d.port == if own.port != 0 then own.port
                 else PositiveNumber(env.port).Or(if file.shared.port != 0 then file.shared.port else 9)
  }

  lemma NormalIsFilled(own: Device, i: nat, file: WoL, env: Env)
    ensures Filled(NormalDevice(own, i, WithEnv(WithDefaults(file), env).shared), own, file, env)
  {
  }

  /**
   A device table, end to end: the environment's table stands before the file's, every device keeps
   what it states, and every gap is filled from the environment, the file or the built-in values.
   */
  lemma LoadedTable(file: WoL, env: Env, i: nat)
    requires var table := if env.devices != "" then DevicesOf(env.devices) else file.devices; i < |table|
    ensures var table := if env.devices != "" then DevicesOf(env.devices) else file.devices;
            var w := Normalized(WithEnv(WithDefaults(file), env));
            && |w.devices| == |table| && Filled(w.devices[i], table[i], file, env)
            && w.devices[i].name == if TrimSpace(table[i].name) != "" then table[i].name
                                    else "设备" + FormatInt(i + 1)
  {
    var table := if env.devices != "" then DevicesOf(env.devices) else file.devices;
    NormalIsFilled(table[i], i, file, env);
  }

  /** Which items are not blank. */
  function Given(items: seq<string>): (flags: seq<bool>)
    ensures |flags| == |items| && forall k | 0 <= k < |items| :: flags[k] == (TrimSpace(items[k]) != "")
  {
    seq(|items|, k requires 0 <= k < |items| => TrimSpace(items[k]) != "")
  }

  /** The device made up for the address at place `p`. */
  predicate MadeUpAt(items: seq<string>, p: nat, d: Device) {
    p < |items| && d == Device(DefaultName(p), TrimSpace(items[p]), "", "", "", 0)
  }

  /** The devices made up for addresses are numbered by their place in the list. */
  ghost predicate MadeUp(items: seq<string>, pos: seq<nat>, devices: seq<Device>) {
    |devices| == |pos| && forall a | 0 <= a < |pos| :: MadeUpAt(items, pos[a], devices[a])
  }

  lemma MadeUpGrows(items: seq<string>, pos: seq<nat>, devices: seq<Device>, p: nat, d: Device)
    requires MadeUp(items, pos, devices) && MadeUpAt(items, p, d)
    ensures MadeUp(items, pos + [p], devices + [d])
  {
  }

  lemma MadeUpOneMore(items: seq<string>, n: nat, pos: seq<nat>)
    requires n < |items| && MadeUp(items, pos, SeededDevices(items[..n]))
    ensures MadeUp(items, WithPosition(Given(items), n, pos), SeededDevices(items[..n + 1]))
  {
    SeededOneMore(items, n);
    if TrimSpace(items[n]) != "" {
      var d := Device(DefaultName(n), TrimSpace(items[n]), "", "", "", 0);
      MadeUpGrows(items, pos, SeededDevices(items[..n]), n, d);
    }
  }

  lemma {:induction false} SeededUpTo(items: seq<string>, n: nat) returns (pos: seq<nat>)
    requires n <= |items|
    ensures SetPositions(Given(items), n, pos) && MadeUp(items, pos, SeededDevices(items[..n]))
  {
    if n == 0 {
      pos := [];
    } else {
      var before := SeededUpTo(items, n - 1);
      MadeUpOneMore(items, n - 1, before);
      OneMorePosition(Given(items), n - 1, before);
      pos := WithPosition(Given(items), n - 1, before);
    }
  }

  lemma SeededMeaning(items: seq<string>) returns (pos: seq<nat>)
    ensures SetPositions(Given(items), |items|, pos) && MadeUp(items, pos, SeededDevices(items))
  {
    pos := SeededUpTo(items, |items|);
    assert items[..|items|] == items;
  }

  lemma MadeUpIsFilled(items: seq<string>, pos: seq<nat>, seeded: seq<Device>, a: nat, file: WoL, env: Env)
    requires MadeUp(items, pos, seeded) && a < |pos|
    ensures var d := NormalDevice(seeded[a], a, WithEnv(WithDefaults(file), env).shared);
            d.name == "设备" + FormatInt(pos[a] + 1) && d.mac == TrimSpace(items[pos[a]])
            && Filled(d, Device("", d.mac, "", "", "", 0), file, env)
  {
    assert MadeUpAt(items, pos[a], seeded[a]);
    NormalIsFilled(seeded[a], a, file, env);
  }

  /** With no table anywhere, each address that is not blank becomes a device, named by its place in the list. */
  lemma LoadedAddresses(file: WoL, env: Env) returns (pos: seq<nat>)
    requires (if env.devices != "" then DevicesOf(env.devices) else file.devices) == []
    ensures var macs := if env.macs != "" then CsvOf(env.macs) else file.macs;
            var w := Normalized(WithEnv(WithDefaults(file), env));
            && SetPositions(Given(macs), |macs|, pos) && |w.devices| == |pos|
            && forall a | 0 <= a < |pos| ::
                 var d := w.devices[a];
                 d.name == "设备" + FormatInt(pos[a] + 1) && d.mac == TrimSpace(macs[pos[a]])
                 && Filled(d, Device("", d.mac, "", "", "", 0), file, env)
  {
    var macs := if env.macs != "" then CsvOf(env.macs) else file.macs;
    pos := SeededMeaning(macs);
    var w := Normalized(WithEnv(WithDefaults(file), env));
    forall a | 0 <= a < |pos|
      ensures var d := w.devices[a];
              d.name == "设备" + FormatInt(pos[a] + 1) && d.mac == TrimSpace(macs[pos[a]])
              && Filled(d, Device("", d.mac, "", "", "", 0), file, env)
    {
      MadeUpIsFilled(macs, pos, SeededDevices(macs), a, file, env);
    }
  }

  lemma {:induction false} MacsOfNormalDevices(devices: seq<Device>, shared: Shared)
    ensures PresentMacs(NormalDevices(devices, shared)) == PresentMacs(devices)
  {
    if devices != [] {
      var n := |devices| - 1;
      assert NormalDevices(devices, shared)[..n] == NormalDevices(devices[..n], shared);
      MacsOfNormalDevices(devices[..n], shared);
    }
  }

  lemma {:induction false} MacsOfSeededDevices(macs: seq<string>)
    ensures PresentMacs(SeededDevices(macs)) == TrimmedItems(macs)
  {
    if macs != [] {
      var n := |macs| - 1;
      MacsOfSeededDevices(macs[..n]);
      var seeded := SeededDevices(macs[..n]);
      var mac := TrimSpace(macs[n]);
      if mac != "" {
        var d := Device(DefaultName(n), mac, "", "", "", 0);
        assert (seeded + [d])[..|seeded|] == seeded;
      } else {
        assert seeded + [] == seeded;
      }
    }
  }

  lemma {:induction false} PresentMacsAppend(a: seq<Device>, b: seq<Device>)
    ensures PresentMacs(a + b) == PresentMacs(a) + PresentMacs(b)
  {
    if b == [] {
      assert a + b == a;
    } else {
      var n := |b| - 1;
      assert (a + b)[..|a + b| - 1] == a + b[..n];
      PresentMacsAppend(a, b[..n]);
    }
  }

  /** The addresses of a table, device by device, empty ones left out. */
  lemma PresentMacsMeaning(a: seq<Device>, d: Device, b: seq<Device>)
    ensures PresentMacs([]) == []
    ensures PresentMacs(a + [d] + b) == PresentMacs(a) + (if d.mac != "" then [d.mac] else []) + PresentMacs(b)
  {
    PresentMacsAppend(a + [d], b);
    PresentMacsAppend(a, [d]);
    assert [d][..0] == [];
  }

  /** The MAC list comes out as the devices' addresses, or as the trimmed list that stood in for them. */
  lemma NormalizedMacs(w: WoL)
    ensures Normalized(w).macs == if w.devices == [] then TrimmedItems(w.macs) else PresentMacs(w.devices)
  {
    MacsOfNormalDevices(if w.devices == [] then SeededDevices(w.macs) else w.devices, w.shared);
    MacsOfSeededDevices(w.macs);
  }

  /** Normalising twice is normalising once, for any table. */
  lemma NormalizeIdempotent(w: WoL)
    ensures Normalized(Normalized(w)) == Normalized(w)
  {
    var once := Normalized(w);
    if once.devices != [] {
      forall i | 0 <= i < |once.devices|
        ensures NormalDevice(once.devices[i], i, once.shared) == once.devices[i]
      {
      }
      assert NormalDevices(once.devices, once.shared) == once.devices;
    }
  }

  lemma PresentMacsStep(devices: seq<Device>, i: nat)
    requires i < |devices|
    ensures PresentMacs(devices[..i + 1])
         == PresentMacs(devices[..i]) + if devices[i].mac != "" then [devices[i].mac] else []
  {
    assert devices[..i + 1][..i] == devices[..i];
  }

  lemma AdvanceFrontier<T>(start: seq<T>, goal: seq<T>, i: nat)
    requires |start| == |goal| && i < |start|
    ensures (goal[..i] + start[i..])[i := goal[i]] == goal[..i + 1] + start[i + 1..]
  {
  }

  /**
   The loaded configuration while it is being completed.  The MAC list is a Go
   slice: a length over a backing array, which `[:0]` truncates and `append` reuses.
   */
  class Loader {
    var devices: seq<Device>
    var macs: array<string>
    var macCount: nat
    var iface: string
    var broadcast: string
    var port: int
    var dropPending: bool

    ghost predicate Valid()
      reads this
    {
      macCount <= macs.Length
    }

    ghost function Value(): WoL
      requires Valid()
      reads this, macs
    {
      WoL(macs[..macCount], devices, Shared(iface, broadcast, port))
    }

    ghost function SharedValue(): Shared
      reads this
    {
      Shared(iface, broadcast, port)
    }

    /** What the YAML file holds. */
    constructor (file: WoL, dropPending: bool)
      ensures Valid() && fresh(macs)
      ensures Value() == file && this.dropPending == dropPending
    {
      macs := new string[0];
      macCount := 0;
      devices, iface, broadcast, port := file.devices, file.shared.iface, file.shared.broadcast, file.shared.port;
      this.dropPending := dropPending;
      new;
      SetMacs(file.macs);
    }

    /** The drop-pending switch is forced on, whatever the file says. */
    method ApplyDefaults()
      requires Valid()
      modifies this
      ensures Valid() && macs == old(macs)
      ensures Value() == WithDefaults(old(Value())) && dropPending
    {
      if port == 0 {
        port := 9;
      }
      if iface == "" {
        iface := "br-lan";
      }
      if broadcast == "" {
        broadcast := "255.255.255.255";
      }
      dropPending := true;
    }

    method SetMacs(list: seq<string>)
      modifies this`macs, this`macCount
      ensures Valid() && fresh(macs) && macs[..macCount] == list
    {
      macs := new string[|list|](i requires 0 <= i < |list| => list[i]);
      macCount := |list|;
      assert macs[..] == list;
    }

    method ApplyPort(text: string)
      modifies this`port
      ensures port == PortFrom(text, old(port))
    {
      if text != "" {
        var p := Atoi(text);
        if p.Some? && p.value > 0 {
          port := p.value;
        }
      }
    }

    method ApplyShared(env: Env)
      modifies this`iface, this`broadcast, this`port
      ensures SharedValue() == SharedWithEnv(old(SharedValue()), env)
    {
      if env.iface != "" {
        iface := env.iface;
      }
      if env.broadcast != "" {
        broadcast := env.broadcast;
      }
      ApplyPort(env.port);
    }

    method ApplyEnv(env: Env)
      requires Valid()
      modifies this
      ensures Valid() && (macs == old(macs) || fresh(macs))
      ensures Value() == WithEnv(old(Value()), env)
      ensures dropPending == if env.dropPending.Some? then env.dropPending.value else old(dropPending)
    {
      if env.macs != "" {
        var list := SplitCSV(env.macs);
        SetMacs(list);
      }
      ApplyShared(env);
      if env.devices != "" {
        devices := ParseDevices(env.devices);
      }
      if env.dropPending.Some? {
        dropPending := env.dropPending.value;
      }
    }

    /** Go's append: in place while the capacity lasts, into a copy afterwards. */
    method AppendMac(mac: string)
      requires Valid()
      modifies this`macs, this`macCount, macs
      ensures Valid() && (macs == old(macs) || fresh(macs))
      ensures macs[..macCount] == old(macs[..macCount]) + [mac]
    {
      if macCount == macs.Length {
        var old_ := macs;
        var n := macCount;
        macs := new string[2 * n + 1](i requires 0 <= i reads old_ => if i < n && i < old_.Length then old_[i] else "");
      }
      macs[macCount] := mac;
      macCount := macCount + 1;
    }

    /** With no device table, the MAC list stands in for one. */
    method SeedDevices()
      requires Valid()
      modifies this`devices
      ensures devices == if old(devices) == [] then SeededDevices(macs[..macCount]) else old(devices)
    {
      if |devices| == 0 {
        ghost var list := macs[..macCount];
        for i := 0 to macCount
          invariant devices == SeededDevices(list[..i])
        {
          SeededOneMore(list, i);
          var mac := TrimSpace(macs[i]);
          if mac == "" {
            continue;
          }
          devices := devices + [Device(DefaultName(i), mac, "", "", "", 0)];
        }
        assert list[..macCount] == list;
      }
    }

    /** Fills the gaps of device `i` in place. */
    method CompleteDevice(i: nat)
      requires Valid() && i < |devices|
      modifies this`devices
      ensures devices == old(devices)[i := NormalDevice(old(devices)[i], i, SharedValue())]
    {
      if TrimSpace(devices[i].name) == "" {
        devices := devices[i := devices[i].(name := DefaultName(i))];
      }
      if devices[i].iface == "" {
        devices := devices[i := devices[i].(iface := iface)];
      }
      if devices[i].broadcast == "" {
        devices := devices[i := devices[i].(broadcast := broadcast)];
      }
      if devices[i].port == 0 {
        devices := devices[i := devices[i].(port := port)];
      }
    }

    /** One turn of the completing loop. */
    method CompleteAndKeep(i: nat)
      requires Valid() && i < |devices|
      modifies this`devices, this`macs, this`macCount, macs
      ensures Valid() && (macs == old(macs) || fresh(macs))
      ensures devices == old(devices)[i := NormalDevice(old(devices)[i], i, SharedValue())]
      ensures macs[..macCount] == old(macs[..macCount]) + if devices[i].mac != "" then [devices[i].mac] else []
    {
      CompleteDevice(i);
      if devices[i].mac != "" {
        AppendMac(devices[i].mac);
      }
    }

    method CompleteDevices()
      requires Valid() && macCount == 0
      modifies this`devices, this`macs, this`macCount, macs
      ensures Valid() && (macs == old(macs) || fresh(macs))
      ensures devices == NormalDevices(old(devices), SharedValue())
      ensures macs[..macCount] == PresentMacs(devices)
    {
      ghost var start, shared := devices, SharedValue();
      ghost var goal := NormalDevices(start, shared);
      for i := 0 to |devices|
        invariant Valid() && (macs == old(macs) || fresh(macs))
        invariant devices == goal[..i] + start[i..]
        invariant macs[..macCount] == PresentMacs(goal[..i])
      {
        assert devices[i] == start[i];
        CompleteAndKeep(i);
        AdvanceFrontier(start, goal, i);
        PresentMacsStep(goal, i);
        assert devices[i] == goal[i];
      }
      assert goal[..|start|] == goal;
    }

    method NormalizeDevices()
      requires Valid()
      modifies this, macs
      ensures Valid() && (macs == old(macs) || fresh(macs))
      ensures Value() == Normalized(old(Value())) && dropPending == old(dropPending)
    {
      SeedDevices();
      macCount := 0;
      CompleteDevices();
    }

    /** What start-up runs, in its order. */
    method Load(env: Env)
      requires Valid()
      modifies this, macs
      ensures Valid()
      ensures Value() == Normalized(WithEnv(WithDefaults(old(Value())), env))
      ensures dropPending == if env.dropPending.Some? then env.dropPending.value else true
    {
      ApplyDefaults();
      ApplyEnv(env);
      NormalizeDevices();
    }
  }
}
