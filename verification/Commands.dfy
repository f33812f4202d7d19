/**
 internal/commands/handler.go: the command layer every trigger ends in.
 Functions say what a command means; the class runs it the way the program does.
 */
module Commands {
  import opened Wrappers
  import opened GoStrings
  import opened Decimal
  import opened Config
  import opened Wol
  import opened Router

  datatype Source = Source(platform: string, userID: string, chatID: string)

  // ---------- matching one target ----------

  datatype MatchError =
    | BlankTarget
    | NoSuchNumber(number: int)
    | Ambiguous(target: string, hits: seq<nat>)
    | NotFound(target: string)

  predicate ExactHit(d: Device, target: string) {
    EqualFold(d.name, target) || EqualFold(d.mac, target)
  }

  predicate PartialHit(d: Device, target: string) {
    Contains(ToLower(d.name), ToLower(target))
  }

  /** The first exact hit at or after `from`; |devices| when there is none. */
  function FirstExact(devices: seq<Device>, target: string, from: nat): (k: nat)
    requires from <= |devices|
    ensures from <= k <= |devices|
    ensures forall i | from <= i < k :: !ExactHit(devices[i], target)
    ensures k < |devices| ==> ExactHit(devices[k], target)
    decreases |devices| - from
  {
    if from < |devices| && !ExactHit(devices[from], target) then FirstExact(devices, target, from + 1) else from
  }

  /** Which device names contain the target. */
  function PartialFlags(devices: seq<Device>, target: string): (flags: seq<bool>)
    ensures |flags| == |devices|
  {
    seq(|devices|, i requires 0 <= i < |devices| => PartialHit(devices[i], target))
  }

  /** The positions that are set among the first n, ascending. */
  function Raised(flags: seq<bool>, n: nat): (hits: seq<nat>)
    requires n <= |flags|
    ensures forall a | 0 <= a < |hits| :: hits[a] < n && flags[hits[a]]
    ensures forall a, b | 0 <= a < b < |hits| :: hits[a] < hits[b]
  {
    if n == 0 then [] else Raised(flags, n - 1) + if flags[n - 1] then [n - 1] else []
  }

  lemma {:induction false} RaisedComplete(flags: seq<bool>, n: nat, i: nat)
    requires i < n <= |flags| && flags[i]
    ensures i in Raised(flags, n)
  {
    if i < n - 1 {
      RaisedComplete(flags, n - 1, i);
    }
  }

  predicate OnlyFlag(flags: seq<bool>, i: nat)
    requires i < |flags|
  {
    flags[i] && forall k | 0 <= k < |flags| && k != i :: !flags[k]
  }

  lemma {:induction false} RaisedOfOnlyFlag(flags: seq<bool>, i: nat, n: nat)
    requires i < |flags| && OnlyFlag(flags, i) && n <= |flags|
    ensures Raised(flags, n) == if i < n then [i] else []
  {
    if n > 0 {
      RaisedOfOnlyFlag(flags, i, n - 1);
    }
  }

  lemma OnlyRaised(flags: seq<bool>, i: nat)
    requires i < |flags|
    ensures Raised(flags, |flags|) == [i] <==> OnlyFlag(flags, i)
  {
    if OnlyFlag(flags, i) {
      RaisedOfOnlyFlag(flags, i, |flags|);
    }
    if Raised(flags, |flags|) == [i] {
      forall k | 0 <= k < |flags| && flags[k] ensures k == i {
        RaisedComplete(flags, |flags|, k);
      }
      assert flags[Raised(flags, |flags|)[0]];
    }
  }

  /** Exact name or MAC first, then unique part of a name. */
  function MatchByName(devices: seq<Device>, t: string): (r: Result<nat, MatchError>)
    ensures r.Ok? ==> r.value < |devices|
  {
    var k := FirstExact(devices, t, 0);
    if k < |devices| then Ok(k) else
    var hits := Raised(PartialFlags(devices, t), |devices|);
    if |hits| == 1 then Ok(hits[0])
    else if |hits| > 1 then Err(Ambiguous(t, hits))
    else Err(NotFound(t))
  }

  /** A number before any name. */
  function Match(devices: seq<Device>, target: string): (r: Result<nat, MatchError>)
    ensures r.Ok? ==> r.value < |devices|
  {
    var t := TrimSpace(target);
    if t == "" then Err(BlankTarget) else
    match Atoi(t)
    case Some(n) => if 1 <= n <= |devices| then Ok(n - 1) else Err(NoSuchNumber(n))
    case None => MatchByName(devices, t)
  }

  // ---------- what a target designates ----------

  /** A device called `t`, by name or MAC address, up to case. */
  predicate IsCalled(d: Device, t: string) {
    SameUpToCase(d.name, t) || SameUpToCase(d.mac, t)
  }

  lemma HitMeaning(d: Device, t: string)
    ensures ExactHit(d, t) <==> IsCalled(d, t)
    ensures PartialHit(d, t) <==> HoldsUpToCase(d.name, t)
  {
    FoldsAgree(d.name, t);
    FoldsAgree(d.mac, t);
    ContainsUpToCase(d.name, t);
  }

  /** What a name means: the first device called so, otherwise the only one whose name holds it. */
  ghost predicate Named(devices: seq<Device>, t: string, i: nat)
    requires i < |devices|
  {
    if exists k | 0 <= k < |devices| :: IsCalled(devices[k], t)
    then IsCalled(devices[i], t) && forall k | 0 <= k < i :: !IsCalled(devices[k], t)
    else && HoldsUpToCase(devices[i].name, t)
         && forall k | 0 <= k < |devices| && k != i :: !HoldsUpToCase(devices[k].name, t)
  }

  /** What a target means: a number is a number, everything else is a name. */
  ghost predicate Designates(devices: seq<Device>, target: string, i: nat)
    requires i < |devices|
  {
    var t := TrimSpace(target);
    t != "" && if Atoi(t).Some? then Atoi(t).value == i + 1 else Named(devices, t, i)
  }

  /** The same, in terms of the search. */
  ghost predicate FoundByName(devices: seq<Device>, t: string, i: nat)
    requires i < |devices|
  {
    if exists k | 0 <= k < |devices| :: ExactHit(devices[k], t)
    then ExactHit(devices[i], t) && forall k | 0 <= k < i :: !ExactHit(devices[k], t)
    else OnlyFlag(PartialFlags(devices, t), i)
  }

  lemma FoundIsNamed(devices: seq<Device>, t: string, i: nat)
    requires i < |devices|
    ensures FoundByName(devices, t, i) <==> Named(devices, t, i)
  {
    forall k | 0 <= k < |devices|
      ensures ExactHit(devices[k], t) <==> IsCalled(devices[k], t)
      ensures PartialFlags(devices, t)[k] <==> HoldsUpToCase(devices[k].name, t)
    {
      HitMeaning(devices[k], t);
    }
  }

  lemma FirstExactIs(devices: seq<Device>, t: string, i: nat)
    requires i < |devices|
    ensures FirstExact(devices, t, 0) == i
       <==> ExactHit(devices[i], t) && forall k | 0 <= k < i :: !ExactHit(devices[k], t)
  {
    var k := FirstExact(devices, t, 0);
  }

  lemma MatchByNameFindsNamed(devices: seq<Device>, t: string, i: nat)
    requires i < |devices|
    ensures MatchByName(devices, t) == Ok(i) <==> Named(devices, t, i)
  {
    FoundIsNamed(devices, t, i);
    var k := FirstExact(devices, t, 0);
    if k < |devices| {
      assert ExactHit(devices[k], t);
      FirstExactIs(devices, t, i);
    } else {
      OnlyRaised(PartialFlags(devices, t), i);
      var hits := Raised(PartialFlags(devices, t), |devices|);
      assert |hits| == 1 ==> hits == [hits[0]];
    }
  }

  /** The three-tier search finds a device exactly when the target designates it. */
  lemma MatchFindsDesignated(devices: seq<Device>, target: string, i: nat)
    requires i < |devices|
    ensures Match(devices, target) == Ok(i) <==> Designates(devices, target, i)
  {
    var t := TrimSpace(target);
    if t != "" && Atoi(t).None? {
      assert Match(devices, target) == MatchByName(devices, t);
      assert Designates(devices, target, i) <==> Named(devices, t, i);
      MatchByNameFindsNamed(devices, t, i);
    }
  }

  /** The devices whose names hold `t`, in order. */
  ghost predicate AreHolders(devices: seq<Device>, t: string, hits: seq<nat>) {
    && (forall a, b | 0 <= a < b < |hits| :: hits[a] < hits[b])
    && (forall i: nat :: i in hits <==> i < |devices| && HoldsUpToCase(devices[i].name, t))
  }

  lemma RaisedAreHolders(devices: seq<Device>, t: string)
    ensures AreHolders(devices, t, Raised(PartialFlags(devices, t), |devices|))
  {
    var flags := PartialFlags(devices, t);
    forall i: nat ensures i in Raised(flags, |devices|) <==> i < |devices| && HoldsUpToCase(devices[i].name, t) {
      if i < |devices| {
        HitMeaning(devices[i], t);
        if flags[i] {
          RaisedComplete(flags, |devices|, i);
        }
      }
    }
  }

  /** Why a target designates nothing: it is blank, a number out of range, or held by several names or by none. */
  lemma MatchFailureMeaning(devices: seq<Device>, target: string)
    requires Match(devices, target).Err?
    ensures var t, e := TrimSpace(target), Match(devices, target).error;
            if t == "" then e == BlankTarget
            else if Atoi(t).Some? then e == NoSuchNumber(Atoi(t).value) && !(1 <= Atoi(t).value <= |devices|)
            else (forall k | 0 <= k < |devices| :: !IsCalled(devices[k], t))
                 && exists hits :: AreHolders(devices, t, hits) && |hits| != 1
                                   && e == if hits == [] then NotFound(t) else Ambiguous(t, hits)
  {
    var t := TrimSpace(target);
    forall k | 0 <= k < |devices| ensures ExactHit(devices[k], t) <==> IsCalled(devices[k], t) {
      HitMeaning(devices[k], t);
    }
    RaisedAreHolders(devices, t);
  }

  // ---------- resolving a target list ----------

  predicate InRange(devices: seq<Device>, selected: seq<nat>) {
    forall a | 0 <= a < |selected| :: selected[a] < |devices|
  }

  predicate Distinct(selected: seq<nat>) {
    forall a, b | 0 <= a < b < |selected| :: selected[a] != selected[b]
  }

  datatype ResolveError = NoDevices | BadTarget(error: MatchError)

  type Found = Result<nat, MatchError>

  /** The search results of all targets, in order. */
  function Matches(devices: seq<Device>, targets: seq<string>): (r: seq<Found>)
    ensures |r| == |targets|
    ensures forall k | 0 <= k < |r| :: r[k] == Match(devices, targets[k])
  {
    seq(|targets|, k requires 0 <= k < |targets| => Match(devices, targets[k]))
  }

  /** Takes results in turn, passing over an index already selected; the first failure is final. */
  function Collect(found: seq<Found>): Result<seq<nat>, MatchError> {
    if found == [] then Ok([]) else
    match Collect(found[..|found| - 1])
    case Err(e) => Err(e)
    case Ok(selected) =>
      match found[|found| - 1]
      case Err(e) => Err(e)
      case Ok(i) => Ok(if i in selected then selected else selected + [i])
  }

  lemma {:induction false} CollectInRange(devices: seq<Device>, found: seq<Found>)
    requires forall k | 0 <= k < |found| && found[k].Ok? :: found[k].value < |devices|
    ensures Collect(found).Ok? ==> InRange(devices, Collect(found).value)
  {
    if found != [] {
      CollectInRange(devices, found[..|found| - 1]);
    }
  }

  predicate MeansAll(targets: seq<string>) {
    targets == [] || (|targets| == 1 && EqualFold(targets[0], "all"))
  }

  /** The indices of the selected devices, in order of selection. */
  function Resolve(devices: seq<Device>, targets: seq<string>): (r: Result<seq<nat>, ResolveError>)
    ensures r.Ok? ==> InRange(devices, r.value)
  {
    if devices == [] then Err(NoDevices)
    else if MeansAll(targets) then Ok(seq(|devices|, i requires 0 <= i < |devices| => i))
    else
      CollectInRange(devices, Matches(devices, targets));
      match Collect(Matches(devices, targets)) case Err(e) => Err(BadTarget(e)) case Ok(selected) => Ok(selected)
  }

  /** Result `p` is the first to name device `i`. */
  ghost predicate FirstMention(found: seq<Found>, i: nat, p: nat) {
    p < |found| && found[p] == Ok(i) && forall k | 0 <= k < p :: found[k] != Ok(i)
  }

  /** `pos` lists, in order, the results that select something new. */
  ghost predicate FirstOccurrences(found: seq<Found>, selected: seq<nat>, pos: seq<nat>) {
    && |pos| == |selected|
    && (forall a | 0 <= a < |pos| :: FirstMention(found, selected[a], pos[a]))
    && (forall a, b | 0 <= a < b < |pos| :: pos[a] < pos[b])
  }

  ghost predicate Covers(found: seq<Found>, selected: seq<nat>) {
    forall k | 0 <= k < |found| :: found[k].Ok? && found[k].value in selected
  }

  lemma {:induction false} CollectCovers(found: seq<Found>)
    requires Collect(found).Ok?
    ensures Covers(found, Collect(found).value)
    ensures Distinct(Collect(found).value)
  {
    if found != [] {
      var n := |found| - 1;
      CollectCovers(found[..n]);
      forall k | 0 <= k < |found| ensures found[k].Ok? && found[k].value in Collect(found).value {
        assert k < n ==> found[..n][k] == found[k];
      }
    }
  }

  lemma {:induction false} CollectOrder(found: seq<Found>) returns (pos: seq<nat>)
    requires Collect(found).Ok?
    ensures FirstOccurrences(found, Collect(found).value, pos)
  {
    if found == [] {
      pos := [];
    } else {
      var n := |found| - 1;
      var init := found[..n];
      pos := CollectOrder(init);
      var selected, i := Collect(init).value, found[n].value;
      forall a | 0 <= a < |pos| ensures FirstMention(found, selected[a], pos[a]) {
        assert FirstMention(init, selected[a], pos[a]);
      }
      if i !in selected {
        CollectCovers(init);
        assert forall k | 0 <= k < n :: init[k] == found[k];
        assert FirstMention(found, i, n);
        pos := pos + [n];
      }
    }
  }

  lemma {:induction false} CollectFails(found: seq<Found>) returns (k: nat)
    requires Collect(found).Err?
    ensures k < |found| && found[k] == Err(Collect(found).error)
    ensures forall j | 0 <= j < k :: found[j].Ok?
  {
    var n := |found| - 1;
    var init := found[..n];
    if Collect(init).Err? {
      k := CollectFails(init);
      assert forall j | 0 <= j < n :: init[j] == found[j];
    } else {
      k := n;
      CollectCovers(init);
      assert forall j | 0 <= j < n :: init[j] == found[j];
    }
  }

  lemma CollectOneMore(found: seq<Found>, i: nat, selected: seq<nat>, index: nat)
    requires i < |found| && found[i] == Ok(index) && Collect(found[..i]) == Ok(selected)
    ensures Collect(found[..i + 1]) == Ok(if index in selected then selected else selected + [index])
  {
    assert found[..i + 1][..i] == found[..i];
  }

  lemma {:induction false} CollectStops(found: seq<Found>, i: nat)
    requires i < |found| && Collect(found[..i]).Ok? && found[i].Err?
    ensures Collect(found) == Err(found[i].error)
    decreases |found|
  {
    var n := |found| - 1;
    if i < n {
      assert found[..n][..i] == found[..i];
      CollectStops(found[..n], i);
    }
  }

  /** Collecting fails exactly when some result is a failure, and with the first failure's error. */
  lemma CollectFailsAtFirst(found: seq<Found>)
    ensures Collect(found).Err? <==> exists k | 0 <= k < |found| :: found[k].Err?
    ensures forall k | 0 <= k < |found| && found[k].Err? && (forall j | 0 <= j < k :: found[j].Ok?) ::
              Collect(found) == Err(found[k].error)
  {
    if Collect(found).Err? {
      var first := CollectFails(found);
    } else {
      CollectCovers(found);
    }
  }

  /** A list that asks for every device: an empty one, or the one word "all" in any case. */
  predicate AsksForAll(targets: seq<string>) {
    targets == [] || (|targets| == 1 && SameUpToCase(targets[0], "all"))
  }

  lemma MeansAllMeaning(targets: seq<string>)
    ensures MeansAll(targets) <==> AsksForAll(targets)
  {
    if |targets| == 1 {
      FoldsAgree(targets[0], "all");
    }
  }

  /**
   Failure: exactly when there is no device at all, or a target of a list that does not ask for
   every device fails, and then with the first failing target's error.
   */
  lemma ResolveFailsAtFirstBadTarget(devices: seq<Device>, targets: seq<string>)
    ensures var r := Resolve(devices, targets);
            && (r == Err(NoDevices) <==> devices == [])
            && (r.Err? <==>
                  devices == []
                  || (!AsksForAll(targets) && exists k | 0 <= k < |targets| :: Match(devices, targets[k]).Err?))
            && (devices != [] && !AsksForAll(targets) ==>
                  forall k | 0 <= k < |targets| && Match(devices, targets[k]).Err?
                             && (forall j | 0 <= j < k :: Match(devices, targets[j]).Ok?) ::
                    r == Err(BadTarget(Match(devices, targets[k]).error)))
  {
    MeansAllMeaning(targets);
    var found := Matches(devices, targets);
    CollectFailsAtFirst(found);
    forall k | 0 <= k < |targets| && found[k].Err? && (forall j | 0 <= j < k :: Match(devices, targets[j]).Ok?)
      ensures Collect(found) == Err(found[k].error)
    {
      assert forall j | 0 <= j < k :: found[j].Ok?;
    }
  }

  /** Success: distinct devices, none missing, in order of first mention; all of them when the list asks for all. */
  lemma ResolveSelectsFirstOccurrences(devices: seq<Device>, targets: seq<string>)
    requires Resolve(devices, targets).Ok?
    ensures var selected := Resolve(devices, targets).value;
            && selected != []
            && Distinct(selected)
            && if AsksForAll(targets) then |selected| == |devices| && forall i | 0 <= i < |devices| :: selected[i] == i
               else && Covers(Matches(devices, targets), selected)
                    && exists pos :: FirstOccurrences(Matches(devices, targets), selected, pos)
  {
    MeansAllMeaning(targets);
    if !MeansAll(targets) {
      var found := Matches(devices, targets);
      CollectCovers(found);
      var pos := CollectOrder(found);
      assert found[0].value in Collect(found).value;
    }
  }

  // ---------- canonical re-issue ----------

  function Numbers(selected: seq<nat>): seq<string> {
    seq(|selected|, a requires 0 <= a < |selected| => FormatInt(selected[a] + 1))
  }

  lemma NumberMatches(devices: seq<Device>, i: nat)
    requires i < |devices| <= MAX_INT64
    ensures Match(devices, FormatInt(i + 1)) == Ok(i)
    ensures !EqualFold(FormatInt(i + 1), "all")
  {
    var s := FormatInt(i + 1);
    ParseOfFormat(i + 1);
    assert !IsSpace(s[0]) && !IsSpace(s[|s| - 1]);
    assert ToLower(s)[0] == s[0] && ToLower("all")[0] == 'a';
  }

  lemma {:induction false} CollectDistinct(selected: seq<nat>, found: seq<Found>)
    requires Distinct(selected) && |found| == |selected|
    requires forall a | 0 <= a < |selected| :: found[a] == Ok(selected[a])
    ensures Collect(found) == Ok(selected)
  {
    if selected != [] {
      var n := |selected| - 1;
      CollectDistinct(selected[..n], found[..n]);
      assert selected[..n] + [selected[n]] == selected;
    }
  }

  lemma NumbersMatch(devices: seq<Device>, selected: seq<nat>)
    requires |devices| <= MAX_INT64 && InRange(devices, selected)
    ensures forall a | 0 <= a < |selected| :: Matches(devices, Numbers(selected))[a] == Ok(selected[a])
  {
    forall a | 0 <= a < |selected| ensures Matches(devices, Numbers(selected))[a] == Ok(selected[a]) {
      NumberMatches(devices, selected[a]);
      assert Numbers(selected)[a] == FormatInt(selected[a] + 1);
    }
  }

  lemma NumbersMeanThemselves(devices: seq<Device>, selected: seq<nat>)
    requires |devices| <= MAX_INT64 && InRange(devices, selected) && selected != []
    ensures !MeansAll(Numbers(selected))
  {
    NumberMatches(devices, selected[0]);
    assert Numbers(selected)[0] == FormatInt(selected[0] + 1);
  }

  /** Naming the selected devices by number selects the same devices in the same order. */
  lemma ReissueByNumber(devices: seq<Device>, targets: seq<string>)
    requires |devices| <= MAX_INT64 && Resolve(devices, targets).Ok?
    ensures Resolve(devices, Numbers(Resolve(devices, targets).value)) == Resolve(devices, targets)
  {
    var selected := Resolve(devices, targets).value;
    ResolveSelectsFirstOccurrences(devices, targets);
    NumbersMatch(devices, selected);
    CollectDistinct(selected, Matches(devices, Numbers(selected)));
    NumbersMeanThemselves(devices, selected);
  }

  // ---------- commands ----------

  datatype Reply =
    | Help
    | List(devices: seq<Device>)
    | WhoAmI(source: Source)
    | Last(record: string)
    | Unknown(command: string)
    | Failed(reason: string)
    | Woke(devices: seq<Device>)

  /** The message sent back.  Only the leading mark and the named devices matter here. */
  function Text(reply: Reply): string {
    match reply
    case Help => "可用命令："
    case List(devices) => if devices == [] then "暂无可用设备。" else "可用设备：" + DeviceNames(devices)
    case WhoAmI(source) => "当前会话：" + source.platform + " " + source.userID + " " + source.chatID
    case Last(record) => if record == "" then "暂无唤醒记录。" else record
    case Unknown(command) => "未知命令 " + command
    case Failed(reason) => "❌ " + reason
    case Woke(devices) => "✅ 已向 " + DeviceNames(devices) + " 发送 Wake-on-LAN 开机指令！"
  }

  function Pick(devices: seq<Device>, selected: seq<nat>): (r: seq<Device>)
    requires InRange(devices, selected)
    ensures |r| == |selected|
  {
    seq(|selected|, a requires 0 <= a < |selected| => devices[selected[a]])
  }

  function Labels(devices: seq<Device>, selected: seq<nat>): (r: seq<string>)
    requires InRange(devices, selected)
    ensures |r| == |selected|
  {
    seq(|selected|, a requires 0 <= a < |selected| => Title(devices, selected[a]))
  }

  function Title(devices: seq<Device>, i: nat): string
    requires i < |devices|
  {
    FormatInt(i + 1) + ":" + devices[i].name
  }

  function MatchErrorText(devices: seq<Device>, e: MatchError): string {
    match e
    case BlankTarget => "设备参数为空。"
    case NoSuchNumber(n) => "设备编号 " + FormatInt(n) + " 不存在。"
    case Ambiguous(t, hits) =>
      "设备名 " + t + " 匹配多台：" + (if InRange(devices, hits) then Join(Labels(devices, hits), ", ") else "") + "。请使用编号。"
    case NotFound(t) => "未找到设备 " + t
  }

  function ResolveErrorText(devices: seq<Device>, e: ResolveError): string {
    match e
    case NoDevices => "暂无可用设备。"
    case BadTarget(error) => MatchErrorText(devices, error)
  }

  /** What the selecting loop holds once it has chosen some indices. */
  ghost predicate Selection(devices: seq<Device>, indices: seq<nat>, seen: map<nat, bool>,
                            selected: seq<Device>, labels: seq<string>) {
    && InRange(devices, indices)
    && (forall k :: k in seen <==> k in indices)
    && selected == Pick(devices, indices) && labels == Labels(devices, indices)
  }

  lemma SelectOneMore(devices: seq<Device>, indices: seq<nat>, seen: map<nat, bool>,
                      selected: seq<Device>, labels: seq<string>, i: nat)
    requires Selection(devices, indices, seen, selected, labels) && i < |devices|
    ensures Selection(devices, indices + [i], seen[i := true], selected + [devices[i]], labels + [Title(devices, i)])
  {
  }

  function LabelOf(devices: seq<Device>, targets: seq<string>): string
    requires Resolve(devices, targets).Ok?
  {
    if MeansAll(targets) then "全部设备" else Join(Labels(devices, Resolve(devices, targets).value), ", ")
  }

  /** The devices a successful resolution stands for. */
  function Chosen(devices: seq<Device>, targets: seq<string>): seq<Device>
    requires Resolve(devices, targets).Ok?
  {
    Pick(devices, Resolve(devices, targets).value)
  }

  function RecordText(now: string, source: Source, title: string): (r: string)
    ensures r != ""
  {
    "最近唤醒：" + now + " 由 " + Actor(source) + " 触发，目标：" + title
  }

  function Actor(source: Source): string {
    if source.userID != "" then source.platform + ":" + source.userID else source.platform
  }

  /** The outcome of a command: the reply, the datagrams sent, the last-wake record left behind. */
  datatype Outcome = Outcome(reply: Reply, frames: seq<Datagram>, lastWake: string)

  function WakeOutcome(devices: seq<Device>, lastWake: string, targets: seq<string>, source: Source,
                       link: Link, now: string): Outcome {
    match Resolve(devices, targets)
    case Err(e) => Outcome(Failed(ResolveErrorText(devices, e)), [], lastWake)
    case Ok(selected) =>
      var chosen := Pick(devices, selected);
      if |chosen| == 0 then Outcome(Failed("没有匹配到可唤醒设备。"), [], lastWake) else
      match SendWoLError(chosen, link)
      case Some(e) => Outcome(Failed("发送开机指令失败：" + e), FramesBeforeFailure(chosen, link), lastWake)
      case None => Outcome(Woke(chosen), FramesBeforeFailure(chosen, link),
                           RecordText(now, source, LabelOf(devices, targets)))
  }

  /** The names a wake is recorded under: each with its number, or the word for all of them. */
  function RecordedAs(devices: seq<Device>, selected: seq<nat>, all: bool): string
    requires InRange(devices, selected)
  {
    if all then "全部设备" else
    Join(seq(|selected|, a requires 0 <= a < |selected| =>
           FormatInt(selected[a] + 1) + ":" + devices[selected[a]].name), ", ")
  }

  /**
   A wake, device by device.  When resolution fails nothing is sent and the record stays.  Otherwise
   the selected devices' wake-up datagrams leave in order of selection up to the first failure, and
   exactly when all of them left the reply tells so and the record is replaced.
   */
  lemma WakeMeaning(devices: seq<Device>, lastWake: string, targets: seq<string>, source: Source,
                    link: Link, now: string)
    ensures var o, r := WakeOutcome(devices, lastWake, targets, source, link, now), Resolve(devices, targets);
            if r.Err? then o.reply.Failed? && o.frames == [] && o.lastWake == lastWake else
            var chosen := seq(|r.value|, a requires 0 <= a < |r.value| => devices[r.value[a]]);
            && SentUpToFirstFailure(chosen, link, o.frames)
            && if |o.frames| < |r.value| then o.reply.Failed? && o.lastWake == lastWake else
               && o.reply == Woke(chosen)
               && o.lastWake == RecordText(now, source, RecordedAs(devices, r.value, AsksForAll(targets)))
  {
    var r := Resolve(devices, targets);
    if r.Ok? {
      var chosen := seq(|r.value|, a requires 0 <= a < |r.value| => devices[r.value[a]]);
      assert chosen == Chosen(devices, targets);
      ResolveSelectsFirstOccurrences(devices, targets);
      SendWoLMeaning(chosen, link);
      LabelMeaning(devices, targets);
    }
  }

  lemma LabelMeaning(devices: seq<Device>, targets: seq<string>)
    requires Resolve(devices, targets).Ok?
    ensures LabelOf(devices, targets) == RecordedAs(devices, Resolve(devices, targets).value, AsksForAll(targets))
  {
    MeansAllMeaning(targets);
    var selected := Resolve(devices, targets).value;
    assert Labels(devices, selected)
        == seq(|selected|, a requires 0 <= a < |selected| =>
                 FormatInt(selected[a] + 1) + ":" + devices[selected[a]].name);
  }

  /** A record names its time, who asked for it, and what was woken. */
  lemma RecordTextMeaning(now: string, source: Source, title: string)
    ensures RecordText(now, source, title)
            == "最近唤醒：" + now + " 由 "
               + (source.platform + (if source.userID != "" then ":" + source.userID else "")) + " 触发，目标：" + title
  {
    assert source.platform + "" == source.platform;
  }

  /** A word up to its '@'. */
  function CutMention(word: string): string {
    var at := IndexOf(word, '@');
    if at != -1 then word[..at] else word
  }

  function NormalizeCommand(command: string): string {
    TrimSpace(CutMention(command))
  }

  /** What the handler is asked to do: a command and its arguments, or nothing at all. */
  datatype Call = Blank | Call(command: string, args: seq<string>)

  function CallOfWords(words: seq<string>): Call {
    if words == [] then Blank else Call(NormalizeCommand(words[0]), words[1..])
  }

  function CallOf(text: string): Call {
    CallOfWords(Fields(text))
  }

  function Perform(devices: seq<Device>, lastWake: string, call: Call, source: Source,
                   link: Link, now: string): Outcome {
    match call
    case Blank => Outcome(Help, [], lastWake)
    case Call(command, args) =>
      var c := ToLower(command);
      if c == "/on" then WakeOutcome(devices, lastWake, args, source, link, now)
      else if c == "/list" then Outcome(List(devices), [], lastWake)
      else if c == "/help" then Outcome(Help, [], lastWake)
      else if c == "/whoami" then Outcome(WhoAmI(source), [], lastWake)
      else if c == "/last" then Outcome(Last(lastWake), [], lastWake)
      else Outcome(Unknown(command), [], lastWake)
  }

  function HandleOutcome(devices: seq<Device>, lastWake: string, text: string, source: Source,
                         link: Link, now: string): Outcome {
    Perform(devices, lastWake, CallOf(text), source, link, now)
  }

  /** White space around and between the fields of its text makes no difference to the handler. */
  lemma HandleIgnoresSpacing(devices: seq<Device>, lastWake: string, text: string, source: Source,
                             link: Link, now: string)
    ensures HandleOutcome(devices, lastWake, text, source, link, now)
            == HandleOutcome(devices, lastWake, Join(Fields(text), " "), source, link, now)
  {
    FieldsAreWords(text);
    FieldsOfJoin(Fields(text));
  }

  /** `head` is the part of a word before its first '@', or the whole word. */
  predicate IsBeforeAt(head: string, word: string) {
    head <= word && '@' !in head && (|head| < |word| ==> word[|head|] == '@')
  }

  lemma CutMentionMeaning(word: string, head: string)
    ensures IsBeforeAt(head, word) <==> head == CutMention(word)
  {
    var cut := CutMention(word);
    assert IsBeforeAt(cut, word);
    assert forall i | 0 <= i < |cut| :: word[i] == cut[i];
    assert head <= word ==> forall i | 0 <= i < |head| :: word[i] == head[i];
  }

  lemma NormalizedWord(word: string)
    requires NoSpace(word)
    ensures IsBeforeAt(NormalizeCommand(word), word)
  {
    var cut := CutMention(word);
    CutMentionMeaning(word, cut);
    assert NoSpace(cut) && TrimLeft(cut) == cut && TrimRight(cut) == cut;
  }

  /** The reply to any command but a wake. */
  function ReplyTo(devices: seq<Device>, lastWake: string, command: string, source: Source): Reply {
    if SameUpToCase(command, "/help") then Help
    else if SameUpToCase(command, "/list") then List(devices)
    else if SameUpToCase(command, "/whoami") then WhoAmI(source)
    else if SameUpToCase(command, "/last") then Last(lastWake)
    else Unknown(command)
  }

  lemma IsTheCommand(command: string, name: string)
    requires ToLower(name) == name
    ensures ToLower(command) == name <==> SameUpToCase(command, name)
  {
    FoldsAgree(command, name);
  }

  lemma PerformMeaning(devices: seq<Device>, lastWake: string, command: string, args: seq<string>, source: Source,
                       link: Link, now: string)
    ensures Perform(devices, lastWake, Call(command, args), source, link, now)
            == if SameUpToCase(command, "/on") then WakeOutcome(devices, lastWake, args, source, link, now)
               else Outcome(ReplyTo(devices, lastWake, command, source), [], lastWake)
  {
    IsTheCommand(command, "/on");
    IsTheCommand(command, "/list");
    IsTheCommand(command, "/help");
    IsTheCommand(command, "/whoami");
    IsTheCommand(command, "/last");
  }

  /** The first field up to its '@' is the command, the others are its arguments. */
  lemma CallMeaning(text: string, head: string)
    requires Fields(text) != [] && IsBeforeAt(head, Fields(text)[0])
    ensures CallOf(text) == Call(head, Fields(text)[1..])
  {
    var word := Fields(text)[0];
    FieldsAreWords(text);
    CutMentionMeaning(word, head);
    NormalizedWord(word);
    CutMentionMeaning(word, NormalizeCommand(word));
  }

  /**
   What the handler does with a text.  Without a field in it, help.  Otherwise the first field up to
   an '@', in any case, picks the command and the other fields are its arguments; only a wake sends
   or records anything.
   */
  lemma HandleMeaning(devices: seq<Device>, lastWake: string, text: string, source: Source,
                      link: Link, now: string, head: string)
    ensures var o, words := HandleOutcome(devices, lastWake, text, source, link, now), Fields(text);
            if words == [] then o == Outcome(Help, [], lastWake)
            else IsBeforeAt(head, words[0]) ==>
              if SameUpToCase(head, "/on") then o == WakeOutcome(devices, lastWake, words[1..], source, link, now)
              else o == Outcome(ReplyTo(devices, lastWake, head, source), [], lastWake)
  {
    var words := Fields(text);
    if words != [] && IsBeforeAt(head, words[0]) {
      CallMeaning(text, head);
      PerformMeaning(devices, lastWake, head, words[1..], source, link, now);
    }
  }

  /** The mark the relay client reads success from. */
  predicate Accepted(message: string) {
    !HasPrefix(message, "❌") && !HasPrefix(message, "未知")
  }

  /** A wake is answered with one of two marks, and only the good one is accepted; an unknown command is not. */
  lemma AcceptedMark(reply: Reply)
    requires reply.Woke? || reply.Failed? || reply.Unknown?
    ensures (if reply.Woke? then "✅" else if reply.Failed? then "❌" else "未知") <= Text(reply)
    ensures Accepted(Text(reply)) <==> reply.Woke?
  {
    assert Text(reply)[0] == (if reply.Woke? then "✅" else if reply.Failed? then "❌" else "未知")[0];
    assert reply.Failed? ==> "❌" <= Text(reply);
    assert reply.Unknown? ==> "未知" <= Text(reply);
  }

  /** A wake counts as accepted exactly when every chosen packet left and the record was written. */
  lemma AcceptedWakeIsComplete(devices: seq<Device>, lastWake: string, targets: seq<string>, source: Source,
                               link: Link, now: string)
    ensures var o := WakeOutcome(devices, lastWake, targets, source, link, now);
            && (Accepted(Text(o.reply)) <==>
                  Resolve(devices, targets).Ok? && |o.frames| == |Chosen(devices, targets)|)
            && o.lastWake == if Accepted(Text(o.reply)) then RecordText(now, source, LabelOf(devices, targets))
                             else lastWake
  {
    if Resolve(devices, targets).Ok? {
      ResolveSelectsFirstOccurrences(devices, targets);
    }
    AcceptedMark(WakeOutcome(devices, lastWake, targets, source, link, now).reply);
  }

  // ---------- the running handler ----------

  class Handler {
    const devices: seq<Device>
    var lastWake: string

    constructor (devices: seq<Device>)
      ensures this.devices == devices && lastWake == ""
    {
      this.devices := devices;
      lastWake := "";
    }

    /** The first searching loop: |devices| when it finds nothing. */
    method FindExact(t: string) returns (k: nat)
      ensures k == FirstExact(devices, t, 0)
    {
      for i := 0 to |devices|
        invariant FirstExact(devices, t, 0) == FirstExact(devices, t, i)
      {
        if ExactHit(devices[i], t) {
          return i;
        }
      }
      return |devices|;
    }

    /** The second one: every device whose name contains the target. */
    method FindPartial(t: string) returns (matches: seq<nat>)
      ensures matches == Raised(PartialFlags(devices, t), |devices|)
    {
      matches := [];
      for i := 0 to |devices|
        invariant matches == Raised(PartialFlags(devices, t), i)
      {
        if PartialHit(devices[i], t) {
          matches := matches + [i];
        }
      }
    }

    method MatchDevice(target: string) returns (r: Result<nat, MatchError>)
      ensures r == Match(devices, target)
    {
      var t := TrimSpace(target);
      if t == "" {
        return Err(BlankTarget);
      }
      var number := Atoi(t);
      if number.Some? {
        if number.value < 1 || number.value > |devices| {
          return Err(NoSuchNumber(number.value));
        }
        return Ok(number.value - 1);
      }
      var exact := FindExact(t);
      if exact < |devices| {
        return Ok(exact);
      }
      var matches := FindPartial(t);
      if |matches| == 1 {
        return Ok(matches[0]);
      }
      if |matches| > 1 {
        return Err(Ambiguous(t, matches));
      }
      return Err(NotFound(t));
    }

    /** The chosen devices and the title they are recorded under. */
    method ResolveTargets(targets: seq<string>) returns (r: Result<(seq<Device>, string), ResolveError>)
      ensures r == match Resolve(devices, targets)
                   case Err(e) => Err(e)
                   case Ok(_) => Ok((Chosen(devices, targets), LabelOf(devices, targets)))
    {
      if |devices| == 0 {
        return Err(NoDevices);
      }
      if |targets| == 0 || (|targets| == 1 && EqualFold(targets[0], "all")) {
        assert devices == Chosen(devices, targets);
        return Ok((devices, "全部设备"));
      }
      var r0 := SelectEach(targets);
      if r0.Err? {
        return Err(BadTarget(r0.error));
      }
      return Ok((r0.value.0, Join(r0.value.1, ", ")));
    }

    /** The selecting loop: devices and titles in order, repeated indices passed over. */
    method SelectEach(targets: seq<string>) returns (r: Result<(seq<Device>, seq<string>), MatchError>)
      ensures var c := Collect(Matches(devices, targets));
              if c.Err? then r == Err(c.error)
              else InRange(devices, c.value) && r == Ok((Pick(devices, c.value), Labels(devices, c.value)))
    {
      ghost var results := Matches(devices, targets);
      var selected: seq<Device> := [];
      var labels: seq<string> := [];
      var seen: map<nat, bool> := map[];
      ghost var indices: seq<nat> := [];
      for i := 0 to |targets|
        invariant Collect(results[..i]) == Ok(indices)
        invariant Selection(devices, indices, seen, selected, labels)
      {
        var found := MatchDevice(targets[i]);
        assert results[i] == found;
        if found.Err? {
          CollectStops(results, i);
          return Err(found.error);
        }
        var index := found.value;
        CollectOneMore(results, i, indices, index);
        if index in seen {
          continue;
        }
        SelectOneMore(devices, indices, seen, selected, labels, index);
        indices := indices + [index];
        seen := seen[index := true];
        selected := selected + [devices[index]];
        labels := labels + [FormatInt(index + 1) + ":" + devices[index].name];
      }
      assert results[..|targets|] == results;
      return Ok((selected, labels));
    }

    method RecordLast(source: Source, title: string, now: string)
      modifies this`lastWake
      ensures lastWake == RecordText(now, source, title)
      ensures lastWake == "最近唤醒：" + now + " 由 "
                          + (source.platform + (if source.userID != "" then ":" + source.userID else ""))
                          + " 触发，目标：" + title
    {
      RecordTextMeaning(now, source, title);
      var actor := source.platform;
      if source.userID != "" {
        actor := actor + ":" + source.userID;
      }
      lastWake := "最近唤醒：" + now + " 由 " + actor + " 触发，目标：" + title;
    }

    method WakeDevices(targets: seq<string>, source: Source, lan: Lan, link: Link, now: string) returns (reply: Reply)
      modifies this`lastWake, lan
      ensures var o := WakeOutcome(devices, old(lastWake), targets, source, link, now);
              reply == o.reply && lastWake == o.lastWake && lan.wire == old(lan.wire) + o.frames
    {
      var resolved := ResolveTargets(targets);
      if resolved.Err? {
        return Failed(ResolveErrorText(devices, resolved.error));
      }
      var chosen, title := resolved.value.0, resolved.value.1;
      if |chosen| == 0 {
        return Failed("没有匹配到可唤醒设备。");
      }
      var err := SendWoLDevices(lan, chosen, link);
      if err.Some? {
        return Failed("发送开机指令失败：" + err.value);
      }
      RecordLast(source, title, now);
      return Woke(chosen);
    }

    method Handle(text: string, source: Source, lan: Lan, link: Link, now: string) returns (reply: Reply)
      modifies this`lastWake, lan
      ensures var o := HandleOutcome(devices, old(lastWake), text, source, link, now);
              reply == o.reply && lastWake == o.lastWake && lan.wire == old(lan.wire) + o.frames
    {
      var args := Fields(TrimSpace(text));
      FieldsTrimSpace(text);
      if |args| == 0 {
        return Help;
      }
      var command := NormalizeCommand(args[0]);
      var c := ToLower(command);
      if c == "/on" {
        reply := WakeDevices(args[1..], source, lan, link, now);
      } else if c == "/list" {
        return List(devices);
      } else if c == "/help" {
        return Help;
      } else if c == "/whoami" {
        return WhoAmI(source);
      } else if c == "/last" {
        return Last(lastWake);
      } else {
        return Unknown(command);
      }
    }
  }
}
