/** Dense ids: `config/src/resolve.rs`. Tags are numbered in declaration order, so
    each channel owns one contiguous range of them. */
module Resolve {
  import opened MbTypes
  import opened Device
  import opened Decode

  datatype FunctionCode = ReadFrom(area: Area) | WriteOnly | Vendor(code: Byte)

  /** The kind of raw value that a read function answers with. */
  function KindOf(source: FunctionCode): RawKind {
    match source
    case ReadFrom(area) => if area.IsBitDomain() then OfBits else OfRegisters
    case WriteOnly => OfRegisters
    case Vendor(_) => OfBytes
  }

  /** One register entry; `group` is the index of its poll group. */
  datatype Entry = Entry(
    name: string, group: nat, source: FunctionCode, address: Word, dataType: DataType, length: Option<Word>,
    bit: Option<Byte>, request: seq<Byte>, responseLen: Option<Word>)

  datatype DeviceConfig = DeviceConfig(
    enabled: bool, unit: Byte, requestTimeoutMs: Option<nat>, retry: Option<RetryConfig>, offlineAfter: Option<nat>,
    maxGap: Option<nat>, entries: seq<Entry>)

  datatype ChannelConfig = ChannelConfig(
    enabled: bool, requestTimeoutMs: nat, retry: Option<RetryConfig>, offlineAfter: nat, maxGap: nat,
    devices: seq<DeviceConfig>)

  datatype Register = Register(tag: TagId, entry: Entry)

  datatype ResolvedDevice = ResolvedDevice(
    id: nat, enabled: bool, unit: Byte, requestTimeoutMs: nat, retry: RetryConfig, offlineAfter: nat, maxGap: nat,
    registers: seq<Register>)

  /** The channel owns the tags from `tagStart` up to `tagEnd`. */
  datatype ResolvedChannel =
    ResolvedChannel(enabled: bool, tagStart: TagId, tagEnd: TagId, devices: seq<ResolvedDevice>)

  function Or<T>(o: Option<T>, other: T): T {
    if o.Some? then o.value else other
  }

  // ----- What resolving promises -----

  /** The registers of one device, numbered on from `first`. */
  predicate Numbered(registers: seq<Register>, entries: seq<Entry>, first: TagId) {
    && |registers| == |entries|
    && forall i :: 0 <= i < |entries| ==> registers[i] == Register(first + i, entries[i])
  }

  /** Tags of the first `n` devices. */
  function TagsBefore(devices: seq<DeviceConfig>, n: nat): nat
    requires n <= |devices|
  {
    if n == 0 then 0 else TagsBefore(devices, n - 1) + |devices[n - 1].entries|
  }

  /** Every knob is the device's own, else the channel's, else the gateway's. */
  predicate DeviceResolved(dev: DeviceConfig, ch: ChannelConfig, fallback: RetryConfig, first: TagId,
                           r: ResolvedDevice) {
    && r.enabled == (dev.enabled && ch.enabled) && r.unit == dev.unit
    && r.requestTimeoutMs == (if dev.requestTimeoutMs.Some? then dev.requestTimeoutMs.value else ch.requestTimeoutMs)
    && r.offlineAfter == (if dev.offlineAfter.Some? then dev.offlineAfter.value else ch.offlineAfter)
    && r.maxGap == (if dev.maxGap.Some? then dev.maxGap.value else ch.maxGap)
    && r.retry == (if dev.retry.Some? then dev.retry.value else if ch.retry.Some? then ch.retry.value else fallback)
    && Numbered(r.registers, dev.entries, first)
  }

  /** Every register's tag carries its configured name. */
  predicate Named(devices: seq<ResolvedDevice>, tagNames: seq<string>) {
    forall d, i :: 0 <= d < |devices| && 0 <= i < |devices[d].registers| ==>
      NamedRegister(devices[d].registers[i], tagNames)
  }

  predicate NamedRegister(r: Register, tagNames: seq<string>) {
    r.tag < |tagNames| && tagNames[r.tag] == r.entry.name
  }

  lemma NamedGrows(devices: seq<ResolvedDevice>, r: ResolvedDevice, tagNames: seq<string>, tagNames': seq<string>)
    requires Named(devices, tagNames) && tagNames <= tagNames'
    requires forall i :: 0 <= i < |r.registers| ==> NamedRegister(r.registers[i], tagNames')
    ensures Named(devices + [r], tagNames')
  {
    forall d, i | 0 <= d < |devices + [r]| && 0 <= i < |(devices + [r])[d].registers|
      ensures NamedRegister((devices + [r])[d].registers[i], tagNames')
    {
      if d < |devices| {
        assert NamedRegister(devices[d].registers[i], tagNames);
      }
    }
  }

  predicate DeviceAt(ch: ChannelConfig, fallback: RetryConfig, start: TagId, r: ResolvedDevice, d: nat) {
    d < |ch.devices| && DeviceResolved(ch.devices[d], ch, fallback, start + TagsBefore(ch.devices, d), r)
  }

  predicate DevicesResolved(ch: ChannelConfig, fallback: RetryConfig, start: TagId, devices: seq<ResolvedDevice>,
                            n: nat)
  {
    |devices| == n && forall d :: 0 <= d < n ==> DeviceAt(ch, fallback, start, devices[d], d)
  }

  predicate ChannelResolved(ch: ChannelConfig, fallback: RetryConfig, r: ResolvedChannel) {
    && r.enabled == ch.enabled
    && r.tagEnd == r.tagStart + TagsBefore(ch.devices, |ch.devices|)
    && DevicesResolved(ch, fallback, r.tagStart, r.devices, |ch.devices|)
  }

  predicate Abut(channels: seq<ResolvedChannel>, c: nat)
    requires c + 1 < |channels|
  {
    channels[c].tagEnd == channels[c + 1].tagStart
  }

  /** The ranges of consecutive channels tile the tags from 0 to `tagCount`. */
  predicate Tiles(channels: seq<ResolvedChannel>, tagCount: nat) {
    && (forall c :: 0 <= c < |channels| ==> channels[c].tagStart <= channels[c].tagEnd <= tagCount)
    && (forall c: nat :: c + 1 < |channels| ==> Abut(channels, c))
    && (channels != [] ==> channels[0].tagStart == 0 && channels[|channels| - 1].tagEnd == tagCount)
    && (channels == [] ==> tagCount == 0)
  }

  // ----- resolve -----

  method ResolveDevice(dev: DeviceConfig, ch: ChannelConfig, fallback: RetryConfig, id: nat, tagNames: seq<string>)
    returns (r: ResolvedDevice, tagNames': seq<string>)
    ensures DeviceResolved(dev, ch, fallback, |tagNames|, r) && r.id == id
    ensures |tagNames'| == |tagNames| + |dev.entries| && tagNames <= tagNames'
    ensures forall i :: 0 <= i < |r.registers| ==> NamedRegister(r.registers[i], tagNames')
  {
    var registers: seq<Register> := [];
    tagNames' := tagNames;
    for i := 0 to |dev.entries|
      invariant |registers| == i && |tagNames'| == |tagNames| + i && tagNames'[..|tagNames|] == tagNames
      invariant forall k :: 0 <= k < i ==> registers[k] == Register(|tagNames| + k, dev.entries[k])
      invariant forall k :: 0 <= k < i ==> tagNames'[|tagNames| + k] == dev.entries[k].name
    {
      var tag := |tagNames'|;
      tagNames' := tagNames' + [dev.entries[i].name];
      registers := registers + [Register(tag, dev.entries[i])];
    }
    r := ResolvedDevice(id, dev.enabled && ch.enabled, dev.unit, Or(dev.requestTimeoutMs, ch.requestTimeoutMs),
                        Or(dev.retry, Or(ch.retry, fallback)), Or(dev.offlineAfter, ch.offlineAfter),
                        Or(dev.maxGap, ch.maxGap), registers);
  }

  lemma OneMoreDevice(ch: ChannelConfig, fallback: RetryConfig, start: TagId, devices: seq<ResolvedDevice>,
                      r: ResolvedDevice)
    requires DevicesResolved(ch, fallback, start, devices, |devices|) && DeviceAt(ch, fallback, start, r, |devices|)
    ensures DevicesResolved(ch, fallback, start, devices + [r], |devices| + 1)
  {
  }

  predicate IdsFrom(devices: seq<ResolvedDevice>, first: nat) {
    forall d :: 0 <= d < |devices| ==> devices[d].id == first + d
  }

  method ResolveChannel(ch: ChannelConfig, fallback: RetryConfig, nextDevice: nat, tagNames: seq<string>)
    returns (r: ResolvedChannel, nextDevice': nat, tagNames': seq<string>)
    ensures ChannelResolved(ch, fallback, r) && r.tagStart == |tagNames| && r.tagEnd == |tagNames'|
    ensures tagNames <= tagNames' && Named(r.devices, tagNames')
    ensures nextDevice' == nextDevice + |ch.devices| && IdsFrom(r.devices, nextDevice)
  {
    var devices: seq<ResolvedDevice> := [];
    tagNames', nextDevice' := tagNames, nextDevice;
    for d := 0 to |ch.devices|
      invariant |devices| == d && DevicesResolved(ch, fallback, |tagNames|, devices, d)
      invariant |tagNames'| == |tagNames| + TagsBefore(ch.devices, d) && tagNames <= tagNames'
      invariant nextDevice' == nextDevice + d && IdsFrom(devices, nextDevice) && Named(devices, tagNames')
    {
      var dev;
      ghost var before := tagNames';
      dev, tagNames' := ResolveDevice(ch.devices[d], ch, fallback, nextDevice', tagNames');
      NamedGrows(devices, dev, before, tagNames');
      OneMoreDevice(ch, fallback, |tagNames|, devices, dev);
      nextDevice' := nextDevice' + 1;
      devices := devices + [dev];
    }
    r := ResolvedChannel(ch.enabled, |tagNames|, |tagNames'|, devices);
  }

  /** Devices of the first `n` channels. */
  function DevicesBefore(channels: seq<ChannelConfig>, n: nat): nat
    requires n <= |channels|
  {
    if n == 0 then 0 else DevicesBefore(channels, n - 1) + |channels[n - 1].devices|
  }

  /** Channel `c` is resolved, and its devices are numbered on from the channels
      before it. */
  predicate ResolvedAt(channels: seq<ChannelConfig>, fallback: RetryConfig, out: seq<ResolvedChannel>, c: nat)
    requires c < |out| <= |channels|
  {
    ChannelResolved(channels[c], fallback, out[c]) && IdsFrom(out[c].devices, DevicesBefore(channels, c))
  }

  lemma NamesStay(devices: seq<ResolvedDevice>, tagNames: seq<string>, tagNames': seq<string>)
    requires Named(devices, tagNames) && tagNames <= tagNames'
    ensures Named(devices, tagNames')
  {
    forall d, i | 0 <= d < |devices| && 0 <= i < |devices[d].registers|
      ensures NamedRegister(devices[d].registers[i], tagNames')
    {
      assert NamedRegister(devices[d].registers[i], tagNames);
    }
  }

  lemma OneMoreChannel(out: seq<ResolvedChannel>, r: ResolvedChannel, tagCount: nat)
    requires Tiles(out, tagCount) && r.tagStart == tagCount <= r.tagEnd
    ensures Tiles(out + [r], r.tagEnd)
  {
    var next := out + [r];
    forall c: nat | c + 1 < |next|
      ensures Abut(next, c)
    {
      assert c + 1 < |out| ==> Abut(out, c);
    }
  }

  method ResolveAll(channels: seq<ChannelConfig>, fallback: RetryConfig)
    returns (out: seq<ResolvedChannel>, tagNames: seq<string>)
    ensures |out| == |channels| && Tiles(out, |tagNames|)
    ensures forall c :: 0 <= c < |channels| ==> ResolvedAt(channels, fallback, out, c)
    ensures forall c :: 0 <= c < |channels| ==> Named(out[c].devices, tagNames)
  {
    out, tagNames := [], [];
    var nextDevice := 0;
    for c := 0 to |channels|
      invariant |out| == c && Tiles(out, |tagNames|) && nextDevice == DevicesBefore(channels, c)
      invariant forall k :: 0 <= k < c ==> ResolvedAt(channels, fallback, out, k)
      invariant forall k :: 0 <= k < c ==> Named(out[k].devices, tagNames)
    {
      ghost var before, names := out, tagNames;
      var r;
      r, nextDevice, tagNames := ResolveChannel(channels[c], fallback, nextDevice, tagNames);
      OneMoreChannel(out, r, r.tagStart);
      out := out + [r];
      forall k | 0 <= k < c + 1
        ensures ResolvedAt(channels, fallback, out, k) && Named(out[k].devices, tagNames)
      {
        if k < c {
          assert ResolvedAt(channels, fallback, before, k) && out[k] == before[k];
          NamesStay(out[k].devices, names, tagNames);
        }
      }
    }
  }

  // ----- Single writer per slot -----

  predicate InRange(r: ResolvedChannel, t: TagId) {
    r.tagStart <= t < r.tagEnd
  }

  lemma {:induction false} TagsBeforeGrows(devices: seq<DeviceConfig>, d: nat, n: nat)
    requires d <= n <= |devices|
    ensures TagsBefore(devices, d) <= TagsBefore(devices, n)
    decreases n
  {
    if d < n {
      TagsBeforeGrows(devices, d, n - 1);
    }
  }

  lemma TagOf(ch: ChannelConfig, fallback: RetryConfig, r: ResolvedChannel, d: nat, i: nat)
    requires ChannelResolved(ch, fallback, r) && d < |r.devices| && i < |r.devices[d].registers|
    ensures d < |ch.devices| && i < |ch.devices[d].entries|
    ensures r.devices[d].registers[i].tag == r.tagStart + TagsBefore(ch.devices, d) + i
  {
    assert DeviceAt(ch, fallback, r.tagStart, r.devices[d], d);
  }

  /** Every tag of a channel's devices lies in the channel's own range. */
  lemma TagsStayInRange(ch: ChannelConfig, fallback: RetryConfig, r: ResolvedChannel, d: nat, i: nat)
    requires ChannelResolved(ch, fallback, r) && d < |r.devices| && i < |r.devices[d].registers|
    ensures InRange(r, r.devices[d].registers[i].tag)
  {
    TagOf(ch, fallback, r, d, i);
    TagsBeforeGrows(ch.devices, d + 1, |ch.devices|);
  }

  /** No two registers of a channel share a tag. */
  lemma TagsAreDistinct(ch: ChannelConfig, fallback: RetryConfig, r: ResolvedChannel, d: nat, i: nat, e: nat, j: nat)
    requires ChannelResolved(ch, fallback, r)
    requires d < |r.devices| && i < |r.devices[d].registers| && e < |r.devices| && j < |r.devices[e].registers|
    requires (d, i) != (e, j)
    ensures r.devices[d].registers[i].tag != r.devices[e].registers[j].tag
  {
    TagOf(ch, fallback, r, d, i);
    TagOf(ch, fallback, r, e, j);
    if e < d {
      TagsBeforeGrows(ch.devices, e + 1, d);
      assert TagsBefore(ch.devices, e) + |ch.devices[e].entries| <= TagsBefore(ch.devices, d);
    } else if d < e {
      TagsBeforeGrows(ch.devices, d + 1, e);
      assert TagsBefore(ch.devices, d) + |ch.devices[d].entries| <= TagsBefore(ch.devices, e);
    }
  }

  lemma {:induction false} RangesAscend(channels: seq<ResolvedChannel>, tagCount: nat, c: nat, e: nat)
    requires Tiles(channels, tagCount) && c < e < |channels|
    ensures channels[c].tagEnd <= channels[e].tagStart
    decreases e
  {
    assert Abut(channels, e - 1);
    if c < e - 1 {
      RangesAscend(channels, tagCount, c, e - 1);
    }
  }

  /** Each tag belongs to exactly one channel: one writer per cache slot. */
  lemma {:induction false} OneOwnerPerTag(channels: seq<ResolvedChannel>, tagCount: nat, t: TagId)
    requires Tiles(channels, tagCount) && t < tagCount
    ensures exists c :: 0 <= c < |channels| && InRange(channels[c], t)
    ensures forall c, e ::
              0 <= c < |channels| && 0 <= e < |channels| && InRange(channels[c], t) && InRange(channels[e], t)
              ==> c == e
  {
    var c := OwnerOf(channels, tagCount, t, |channels|);
    forall c, e | 0 <= c < |channels| && 0 <= e < |channels| && InRange(channels[c], t) && InRange(channels[e], t)
      ensures c == e
    {
      if c < e {
        RangesAscend(channels, tagCount, c, e);
      } else if e < c {
        RangesAscend(channels, tagCount, e, c);
      }
    }
  }

  lemma {:induction false} OwnerOf(channels: seq<ResolvedChannel>, tagCount: nat, t: TagId, n: nat) returns (c: nat)
    requires Tiles(channels, tagCount) && 0 < n <= |channels| && t < channels[n - 1].tagEnd
    ensures c < n && InRange(channels[c], t)
    decreases n
  {
    if channels[n - 1].tagStart <= t {
      c := n - 1;
    } else {
      assert n > 1 && Abut(channels, n - 2);
      c := OwnerOf(channels, tagCount, t, n - 1);
    }
  }
}
