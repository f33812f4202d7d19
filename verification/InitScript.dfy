/**
 openwrt/files/etc/init.d/feishu-wol: the shell side of the two list formats,
 and the round trip through the parser in config.go.
 */
module InitScript {
  import opened GoStrings
  import opened Config

  /** One `device` section of the UCI file, as text. */
  datatype Section = Section(name: string, mac: string, ip: string, iface: string, broadcast: string, port: string)

  /** The shell's `${list:+$list<sep>}item`. */
  function Appended(list: string, sep: char, item: string): string {
    if list != "" then list + [sep] + item else item
  }

  function DeviceRecord(s: Section): string {
    Join([s.name, s.mac, s.ip, s.iface, s.broadcast, s.port], "|")
  }

  function PrintedDevices(sections: seq<Section>): string {
    if sections == [] then "" else
    var list := PrintedDevices(sections[..|sections| - 1]);
    var s := sections[|sections| - 1];
    if s.mac == "" then list else Appended(list, ';', DeviceRecord(s))
  }

  function PrintedItems(items: seq<string>): string {
    if items == [] then "" else
    Appended(PrintedItems(items[..|items| - 1]), ',', items[|items| - 1])
  }

  /** The accumulators the callbacks append to. */
  class StartService {
    var macList: string
    var deviceList: string

    constructor ()
      ensures macList == "" && deviceList == ""
    {
      macList, deviceList := "", "";
    }

    method AppendMac(item: string)
      modifies this`macList
      ensures macList == Appended(old(macList), ',', item)
    {
      macList := if macList != "" then macList + "," + item else item;
    }

    method AppendDevice(s: Section)
      modifies this`deviceList
      ensures deviceList == if s.mac == "" then old(deviceList) else Appended(old(deviceList), ';', DeviceRecord(s))
    {
      if s.mac == "" {
        return;
      }
      var record := s.name + "|" + s.mac + "|" + s.ip + "|" + s.iface + "|" + s.broadcast + "|" + s.port;
      RecordText(s);
      deviceList := if deviceList != "" then deviceList + ";" + record else record;
    }

    method Collect(macs: seq<string>, sections: seq<Section>)
      requires macList == "" && deviceList == ""
      modifies this
      ensures macList == PrintedItems(macs) && deviceList == PrintedDevices(sections)
    {
      for i := 0 to |macs|
        invariant deviceList == "" && macList == PrintedItems(macs[..i])
      {
        assert macs[..i + 1][..i] == macs[..i];
        AppendMac(macs[i]);
      }
      assert macs[..|macs|] == macs;
      for i := 0 to |sections|
        invariant macList == PrintedItems(macs) && deviceList == PrintedDevices(sections[..i])
      {
        assert sections[..i + 1][..i] == sections[..i];
        AppendDevice(sections[i]);
      }
      assert sections[..|sections|] == sections;
    }
  }

  lemma RecordText(s: Section)
    ensures DeviceRecord(s) == s.name + "|" + s.mac + "|" + s.ip + "|" + s.iface + "|" + s.broadcast + "|" + s.port
  {
    JoinStep(s.broadcast, [s.port]);
    JoinStep(s.iface, [s.broadcast, s.port]);
    JoinStep(s.ip, [s.iface, s.broadcast, s.port]);
    JoinStep(s.mac, [s.ip, s.iface, s.broadcast, s.port]);
    JoinStep(s.name, [s.mac, s.ip, s.iface, s.broadcast, s.port]);
    assert [s.name, s.mac, s.ip, s.iface, s.broadcast, s.port]
        == [s.name] + [s.mac, s.ip, s.iface, s.broadcast, s.port];
    assert [s.mac, s.ip, s.iface, s.broadcast, s.port] == [s.mac] + [s.ip, s.iface, s.broadcast, s.port];
    assert [s.ip, s.iface, s.broadcast, s.port] == [s.ip] + [s.iface, s.broadcast, s.port];
    assert [s.iface, s.broadcast, s.port] == [s.iface] + [s.broadcast, s.port];
    assert [s.broadcast, s.port] == [s.broadcast] + [s.port];
  }

  lemma JoinStep(part: string, rest: seq<string>)
    requires rest != []
    ensures Join([part] + rest, "|") == part + "|" + Join(rest, "|")
  {
    assert ([part] + rest)[1..] == rest;
  }

  // ---------- what the parser should read back ----------

  predicate Clean(text: string) {
    ';' !in text && '|' !in text
  }

  predicate TextsClean(s: Section) {
    Clean(s.name) && Clean(s.mac) && Clean(s.ip) && Clean(s.iface) && Clean(s.broadcast)
  }

  function Trimmed(s: Section): Device {
    Device(TrimSpace(s.name), TrimSpace(s.mac), TrimSpace(s.ip), TrimSpace(s.iface), TrimSpace(s.broadcast),
           PortOf(TrimSpace(s.port)))
  }

  /** The sections with a MAC address, trimmed, in order. */
  function Intended(sections: seq<Section>): seq<Device> {
    if sections == [] then [] else
    var s := sections[|sections| - 1];
    Intended(sections[..|sections| - 1]) + if TrimSpace(s.mac) == "" then [] else [Trimmed(s)]
  }

  lemma CleanRecordReadsBack(s: Section)
    requires TextsClean(s) && Clean(s.port)
    ensures ';' !in DeviceRecord(s)
    ensures RecordDevices(DeviceRecord(s)) == if TrimSpace(s.mac) == "" then [] else [Trimmed(s)]
  {
    RecordText(s);
    var fields := [s.name, s.mac, s.ip, s.iface, s.broadcast, s.port];
    SplitOfJoin(fields, '|');
    SplitOfTrimSpace(DeviceRecord(s), '|');
    var read := Split(TrimSpace(DeviceRecord(s)), '|');
    assert SameTrimmed(read, fields);
  }

  lemma RecordAlone(record: string)
    ensures AllRecordDevices([record]) == RecordDevices(record)
    ensures ';' !in record ==> DevicesOf(record) == RecordDevices(record)
  {
    assert [record][..0] == [];
    if ';' !in record {
      SplitWithout(record, ';');
    }
  }

  /** Whatever a record holds, it is read by itself. */
  lemma DevicesOfAppended(list: string, record: string)
    ensures DevicesOf(Appended(list, ';', record)) == DevicesOf(list) + DevicesOf(record)
  {
    if list != "" {
      DevicesAcrossSemicolon(list, record);
    } else {
      RecordAlone("");
    }
  }

  predicate DeviceClean(d: Device) {
    Clean(d.name) && Clean(d.mac) && Clean(d.ip) && Clean(d.iface) && Clean(d.broadcast)
  }

  lemma FieldClean(record: string, i: nat)
    requires ';' !in record
    ensures Clean(FieldAt(Split(record, '|'), i))
  {
    JoinOfSplit(record, '|');
    SplitParts(record, '|');
    var fields := Split(record, '|');
    if i < |fields| {
      if ';' in fields[i] {
        PartOfJoin(fields, "|", i, ';');
      }
      TrimKeepsClean(fields[i]);
    }
  }

  lemma {:induction false} PartOfJoin(parts: seq<string>, sep: string, i: nat, c: char)
    requires i < |parts| && c in parts[i]
    ensures c in Join(parts, sep)
  {
    if i > 0 {
      PartOfJoin(parts[1..], sep, i - 1, c);
    }
  }

  /** The parser never returns a text with a separator in it. */
  lemma {:induction false} ParsedAreClean(records: seq<string>)
    requires forall i | 0 <= i < |records| :: ';' !in records[i]
    ensures forall d | d in AllRecordDevices(records) :: DeviceClean(d)
  {
    if records != [] {
      var init, last := records[..|records| - 1], records[|records| - 1];
      assert forall i | 0 <= i < |init| :: init[i] == records[i];
      ParsedAreClean(init);
      TrimSpaceKeeps(last, ';');
      forall i: nat ensures Clean(FieldAt(Split(TrimSpace(last), '|'), i)) {
        FieldClean(TrimSpace(last), i);
      }
    }
  }

  lemma {:induction false} IntendedHolds(sections: seq<Section>, i: nat)
    requires i < |sections| && TrimSpace(sections[i].mac) != ""
    ensures Trimmed(sections[i]) in Intended(sections)
  {
    if i < |sections| - 1 {
      IntendedHolds(sections[..|sections| - 1], i);
    }
  }

  /** A list that reads back as intended had no separator in the texts of its devices. */
  lemma ReadBackNeedsClean(sections: seq<Section>)
    requires DevicesOf(PrintedDevices(sections)) == Intended(sections)
    ensures forall i | 0 <= i < |sections| && TrimSpace(sections[i].mac) != "" :: TextsClean(sections[i])
  {
    SplitParts(PrintedDevices(sections), ';');
    ParsedAreClean(Split(PrintedDevices(sections), ';'));
    forall i | 0 <= i < |sections| && TrimSpace(sections[i].mac) != "" ensures TextsClean(sections[i]) {
      IntendedHolds(sections, i);
      var s := sections[i];
      assert DeviceClean(Trimmed(s));
      TrimKeepsClean(s.name);
      TrimKeepsClean(s.mac);
      TrimKeepsClean(s.ip);
      TrimKeepsClean(s.iface);
      TrimKeepsClean(s.broadcast);
    }
  }

  lemma TrimKeepsClean(text: string)
    ensures Clean(TrimSpace(text)) <==> Clean(text)
  {
    TrimSpaceKeeps(text, ';');
    TrimSpaceKeeps(text, '|');
  }

  // ---------- exactly when the list reads back as intended ----------

  /** The part of a port text that is read as a port, and the records that follow it. */
  function PortPart(s: Section): string {
    Split(Split(s.port, ';')[0], '|')[0]
  }

  function StrayDevices(s: Section): seq<Device> {
    AllRecordDevices(Split(s.port, ';')[1..])
  }

  /**
   What a section must meet.  Without a MAC text it is not printed.  With a MAC address: no separator
   in its first five texts, a port that reads the same up to its first separator, and no device after
   a ';' in it.  With nothing but white space for a MAC address: no device in its record.
   */
  predicate SectionReadsBack(s: Section) {
    if s.mac == "" then true
    else if TrimSpace(s.mac) == "" then DevicesOf(DeviceRecord(s)) == []
    else TextsClean(s) && StrayDevices(s) == [] && PortOf(TrimSpace(PortPart(s))) == PortOf(TrimSpace(s.port))
  }

  /** A text without the separator stays in front of the first part. */
  lemma {:induction false} SplitAfterPrefix(a: string, b: string, sep: char)
    requires sep !in a
    ensures Split(a + b, sep) == [a + Split(b, sep)[0]] + Split(b, sep)[1..]
  {
    if a == "" {
      assert a + b == b && a + Split(b, sep)[0] == Split(b, sep)[0];
    } else {
      assert (a + b)[1..] == a[1..] + b;
      SplitAfterPrefix(a[1..], b, sep);
      assert [a[0]] + (a[1..] + Split(b, sep)[0]) == a + Split(b, sep)[0];
    }
  }

  /** The record up to its port. */
  function RecordHead(s: Section): string {
    s.name + "|" + s.mac + "|" + s.ip + "|" + s.iface + "|" + s.broadcast + "|"
  }

  /** Five clean texts and a port text without ';' read as six fields, the last up to its first '|'. */
  lemma HeadReadsBack(s: Section, port: string)
    requires TextsClean(s)
    ensures DeviceOf(Split(TrimSpace(RecordHead(s) + port), '|'))
         == Trimmed(s).(port := PortOf(TrimSpace(Split(port, '|')[0])))
  {
    var head := [s.name, s.mac, s.ip, s.iface, s.broadcast];
    HeadText(s);
    SplitOfJoin(head, '|');
    SplitAtSep(Join(head, "|"), '|', port);
    assert RecordHead(s) + port == Join(head, "|") + ['|'] + port;
    var fields := head + Split(port, '|');
    SplitOfTrimSpace(RecordHead(s) + port, '|');
    assert SameTrimmed(Split(TrimSpace(RecordHead(s) + port), '|'), fields);
  }

  lemma HeadText(s: Section)
    ensures RecordHead(s) == Join([s.name, s.mac, s.ip, s.iface, s.broadcast], "|") + "|"
  {
    JoinStep(s.iface, [s.broadcast]);
    JoinStep(s.ip, [s.iface, s.broadcast]);
    JoinStep(s.mac, [s.ip, s.iface, s.broadcast]);
    JoinStep(s.name, [s.mac, s.ip, s.iface, s.broadcast]);
    assert [s.name, s.mac, s.ip, s.iface, s.broadcast] == [s.name] + [s.mac, s.ip, s.iface, s.broadcast];
    assert [s.mac, s.ip, s.iface, s.broadcast] == [s.mac] + [s.ip, s.iface, s.broadcast];
    assert [s.ip, s.iface, s.broadcast] == [s.ip] + [s.iface, s.broadcast];
    assert [s.iface, s.broadcast] == [s.iface] + [s.broadcast];
  }

  /** What is read of a record with a MAC address and five clean texts. */
  lemma CleanHeadReads(s: Section)
    requires TextsClean(s) && TrimSpace(s.mac) != ""
    ensures DevicesOf(DeviceRecord(s))
         == [Trimmed(s).(port := PortOf(TrimSpace(PortPart(s))))] + StrayDevices(s)
  {
    var parts := Split(s.port, ';');
    RecordText(s);
    assert DeviceRecord(s) == RecordHead(s) + s.port;
    SplitAfterPrefix(RecordHead(s), s.port, ';');
    HeadReadsBack(s, parts[0]);
    RecordAlone(RecordHead(s) + parts[0]);
    RecordsAppend([RecordHead(s) + parts[0]], parts[1..]);
  }

  /** The devices a section is meant to put on the list. */
  function IntendedOf(s: Section): seq<Device> {
    if TrimSpace(s.mac) == "" then [] else [Trimmed(s)]
  }

  /** The devices it does put on it. */
  function PrintedOf(s: Section): seq<Device> {
    if s.mac == "" then [] else DevicesOf(DeviceRecord(s))
  }

  lemma SectionExact(s: Section)
    requires TrimSpace(s.mac) != "" ==> TextsClean(s)
    ensures |PrintedOf(s)| >= |IntendedOf(s)|
    ensures PrintedOf(s) == IntendedOf(s) <==> SectionReadsBack(s)
  {
    if TrimSpace(s.mac) != "" {
      CleanHeadReads(s);
      var d := Trimmed(s).(port := PortOf(TrimSpace(PortPart(s))));
      assert ([d] + StrayDevices(s))[0] == d && ([d] + StrayDevices(s))[1..] == StrayDevices(s);
    }
  }

  lemma DevicesOfOneMore(sections: seq<Section>)
    requires sections != []
    ensures var init, s := sections[..|sections| - 1], sections[|sections| - 1];
            && DevicesOf(PrintedDevices(sections)) == DevicesOf(PrintedDevices(init)) + PrintedOf(s)
            && Intended(sections) == Intended(init) + IntendedOf(s)
  {
    var init, s := sections[..|sections| - 1], sections[|sections| - 1];
    if s.mac != "" {
      DevicesOfAppended(PrintedDevices(init), DeviceRecord(s));
    }
  }

  lemma SplitsAgree<T>(a: seq<T>, b: seq<T>, c: seq<T>, d: seq<T>)
    requires |a| >= |c| && |b| >= |d|
    ensures a + b == c + d <==> a == c && b == d
  {
    if a + b == c + d {
      assert |a| == |c|;
      assert (a + b)[..|a|] == a && (c + d)[..|a|] == c;
      assert (a + b)[|a|..] == b && (c + d)[|a|..] == d;
    }
  }

  ghost predicate EachReadsBack(sections: seq<Section>) {
    forall i | 0 <= i < |sections| :: SectionReadsBack(sections[i])
  }

  lemma EachReadsBackOneMore(sections: seq<Section>)
    requires sections != []
    ensures var init, s := sections[..|sections| - 1], sections[|sections| - 1];
            EachReadsBack(sections) <==> EachReadsBack(init) && SectionReadsBack(s)
  {
    var n := |sections| - 1;
    assert forall i | 0 <= i < n :: sections[..n][i] == sections[i];
  }

  /** Given clean texts, the lists agree exactly when they agree section by section. */
  lemma {:induction false} SectionBySection(sections: seq<Section>)
    requires forall i | 0 <= i < |sections| && TrimSpace(sections[i].mac) != "" :: TextsClean(sections[i])
    ensures |DevicesOf(PrintedDevices(sections))| >= |Intended(sections)|
    ensures DevicesOf(PrintedDevices(sections)) == Intended(sections) <==> EachReadsBack(sections)
  {
    if sections == [] {
      RecordAlone("");
    } else {
      var n := |sections| - 1;
      var init, s := sections[..n], sections[n];
      assert forall i | 0 <= i < n :: init[i] == sections[i];
      SectionBySection(init);
      DevicesOfOneMore(sections);
      EachReadsBackOneMore(sections);
      SectionExact(s);
      SplitsAgree(DevicesOf(PrintedDevices(init)), PrintedOf(s), Intended(init), IntendedOf(s));
    }
  }

  /** For any list of sections, what is printed reads back as intended exactly when each section meets its condition. */
  lemma DevicesRoundTrip(sections: seq<Section>)
    ensures DevicesOf(PrintedDevices(sections)) == Intended(sections) <==> EachReadsBack(sections)
  {
    if DevicesOf(PrintedDevices(sections)) == Intended(sections) {
      ReadBackNeedsClean(sections);
      SectionBySection(sections);
    }
    if EachReadsBack(sections) {
      forall i | 0 <= i < |sections| && TrimSpace(sections[i].mac) != "" ensures TextsClean(sections[i]) {
        assert sections[i].mac != "";
      }
      SectionBySection(sections);
    }
  }

  /** In particular when no printed text holds a separator, blank MACs and unreadable ports included. */
  lemma CleanDevicesReadBack(sections: seq<Section>)
    requires forall i | 0 <= i < |sections| && sections[i].mac != "" ::
               TextsClean(sections[i]) && Clean(sections[i].port)
    ensures DevicesOf(PrintedDevices(sections)) == Intended(sections)
  {
    forall i | 0 <= i < |sections| ensures SectionReadsBack(sections[i]) {
      var s := sections[i];
      if s.mac != "" {
        CleanRecordReadsBack(s);
        RecordAlone(DeviceRecord(s));
        SectionExact(s);
      }
    }
    DevicesRoundTrip(sections);
  }

  /** A device name with a bar in it is enough to lose the MAC address. */
  lemma BarInNameBreaksRoundTrip()
    ensures var s := Section("a|b", "00:11:22:33:44:55", "", "", "", "");
            DevicesOf(PrintedDevices([s])) != Intended([s])
  {
    var s := Section("a|b", "00:11:22:33:44:55", "", "", "", "");
    assert '|' == s.name[1] && !Clean(s.name);
    assert !IsSpace(s.mac[0]);
    TrimSpaceKeeps(s.mac, '0');
    assert s.mac[0] == '0';
    assert [s][0] == s;
    DevicesRoundTrip([s]);
  }

  /** Comma lists read back as their trimmed items, blank ones dropped. */
  lemma {:induction false} ItemsRoundTrip(items: seq<string>)
    requires forall i | 0 <= i < |items| :: ',' !in items[i]
    ensures CsvOf(PrintedItems(items)) == TrimmedItems(items)
  {
    if items == [] {
      assert [""][..0] == [];
    } else {
      var init, last := items[..|items| - 1], items[|items| - 1];
      assert forall i | 0 <= i < |init| :: init[i] == items[i];
      ItemsRoundTrip(init);
      var list := PrintedItems(init);
      SplitWithout(last, ',');
      if list != "" {
        SplitAtSep(list, ',', last);
        var left := Split(list, ',');
        assert (left + [last])[..|left|] == left;
      } else {
        assert [""][..0] == [];
        assert [last][..0] == [];
      }
    }
  }
}
