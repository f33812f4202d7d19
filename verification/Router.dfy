/** cmd/feishu-wol/main.go: waking a list of devices one after the other. */
module Router {
  import opened Wrappers
  import opened GoStrings
  import opened Config
  import opened Wol

  function OptionsOf(d: Device): SendOptions {
    SendOptions(d.iface, d.broadcast, d.port)
  }

  /** The datagram a device is woken with; there is none to speak of without a MAC address. */
  function DeviceFrame(d: Device): Datagram {
    Datagram(if IsMac(d.mac) then Frame(d.mac) else [], Effective(OptionsOf(d)))
  }

  predicate Delivers(d: Device, failure: Option<string>) {
    IsMac(d.mac) && failure.None?
  }

  /** The first device, counting from `from`, whose packet does not leave; |devices| when all do. */
  function FirstFailure(devices: seq<Device>, link: Link, from: nat): (k: nat)
    requires from <= |devices|
    ensures from <= k <= |devices|
    decreases |devices| - from
  {
    if from < |devices| && Delivers(devices[from], link(from)) then FirstFailure(devices, link, from + 1) else from
  }

  lemma {:induction false} FirstFailureIsFirst(devices: seq<Device>, link: Link, from: nat)
    requires from <= |devices|
    ensures var k := FirstFailure(devices, link, from);
            && (forall i | from <= i < k :: Delivers(devices[i], link(i)))
            && (k < |devices| ==> !Delivers(devices[k], link(k)))
    decreases |devices| - from
  {
    if from < |devices| && Delivers(devices[from], link(from)) {
      FirstFailureIsFirst(devices, link, from + 1);
    }
  }

  /** Every device's datagram up to, and not including, the first failing one. */
  function FramesBeforeFailure(devices: seq<Device>, link: Link): (frames: seq<Datagram>)
    ensures |frames| == FirstFailure(devices, link, 0)
  {
    seq(FirstFailure(devices, link, 0), i requires 0 <= i < FirstFailure(devices, link, 0) => DeviceFrame(devices[i]))
  }

  predicate AllDelivered(devices: seq<Device>, link: Link) {
    FirstFailure(devices, link, 0) == |devices|
  }

  function DeviceError(d: Device, failure: Option<string>): string {
    d.name + "(" + d.mac + "): " + (d.mac + ": " + SendOneError(d.mac, failure).Or(""))
  }

  /** One turn of the sending loop. */
  method SendDevice(lan: Lan, device: Device, failure: Option<string>) returns (err: Option<string>)
    modifies lan
    ensures err == if Delivers(device, failure) then None else Some(DeviceError(device, failure))
    ensures lan.wire == old(lan.wire) + if err.None? then [DeviceFrame(device)] else []
  {
    var e := Send(lan, [device.mac], OptionsOf(device), _ => failure);
    SendSingle(device.mac, OptionsOf(device), _ => failure);
    if e.Some? {
      return Some(device.name + "(" + device.mac + "): " + e.value);
    }
    return None;
  }

  function SendWoLError(devices: seq<Device>, link: Link): (err: Option<string>)
    ensures err.None? <==> AllDelivered(devices, link)
  {
    var k := FirstFailure(devices, link, 0);
    if k == |devices| then None else Some(DeviceError(devices[k], link(k)))
  }

  /** The wake-up datagrams of `devices`, in order, up to the first with a malformed address or a failing socket. */
  ghost predicate SentUpToFirstFailure(devices: seq<Device>, link: Link, frames: seq<Datagram>) {
    && |frames| <= |devices|
    && (forall a | 0 <= a < |frames| ::
          var d := devices[a];
          IsMac(d.mac) && link(a).None? && IsWakeUp(frames[a], d.mac, d.iface, d.broadcast, d.port))
    && (|frames| < |devices| ==> !IsMac(devices[|frames|].mac) || link(|frames|).Some?)
  }

  /** What the loop sends, and that its error names the device it stopped at, with the cause. */
  lemma SendWoLMeaning(devices: seq<Device>, link: Link)
    ensures SentUpToFirstFailure(devices, link, FramesBeforeFailure(devices, link))
    ensures var k, err := |FramesBeforeFailure(devices, link)|, SendWoLError(devices, link);
            if k == |devices| then err == None else
            var d := devices[k];
            err == Some(d.name + "(" + d.mac + "): " + (d.mac + ": " +
                        (if IsMac(d.mac) then link(k).Or("") else MacErrorText(MacErrorOf(d.mac)))))
  {
    FirstFailureIsFirst(devices, link, 0);
    var frames := FramesBeforeFailure(devices, link);
    forall a | 0 <= a < |frames|
      ensures var d := devices[a]; IsWakeUp(frames[a], d.mac, d.iface, d.broadcast, d.port)
    {
      FrameIsWakeUp(devices[a].mac, OptionsOf(devices[a]));
    }
  }

  lemma SendSingle(mac: string, o: SendOptions, link: Link)
    ensures SentFrames([mac], o, link)
         == if SendOneError(mac, link(0)).None? then [Datagram(Frame(mac), Effective(o))] else []
    ensures SendErrors([mac], link)
         == if SendOneError(mac, link(0)).Some? then [mac + ": " + SendOneError(mac, link(0)).value] else []
  {
    assert [mac][..0] == [];
  }

  /** Stops at the first failure; the packets already sent stay sent. */
  method SendWoLDevices(lan: Lan, devices: seq<Device>, link: Link) returns (err: Option<string>)
    modifies lan
    ensures lan.wire == old(lan.wire) + FramesBeforeFailure(devices, link)
    ensures SentUpToFirstFailure(devices, link, FramesBeforeFailure(devices, link))
    ensures err == SendWoLError(devices, link)
  {
    SendWoLMeaning(devices, link);
    ghost var sent := FramesBeforeFailure(devices, link);
    FirstFailureIsFirst(devices, link, 0);
    for i := 0 to |devices|
      invariant i <= FirstFailure(devices, link, 0)
      invariant lan.wire == old(lan.wire) + sent[..i]
    {
      var e := SendDevice(lan, devices[i], link(i));
      if e.Some? {
        return e;
      }
      assert sent[..i + 1] == sent[..i] + [DeviceFrame(devices[i])];
    }
    return None;
  }

  function DeviceNames(devices: seq<Device>): string {
    "[" + Join(seq(|devices|, i requires 0 <= i < |devices| => devices[i].name + "(" + devices[i].mac + ")"), " ") + "]"
  }
}
