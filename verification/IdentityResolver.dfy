/** Which modem belongs to which configured device: by IMEI, and for configurations that
    have no IMEI yet by their stable path. */
module IdentityResolver {
  import opened Common
  import opened Text

  datatype DeviceConfig = DeviceConfig(id: string, imei: string, usbPath: string, controlDevice: string, iface: string)
  datatype Modem = Modem(imei: string, mode: string, usbPath: string, controlPath: string, netInterface: string)
  datatype MatchedPair = MatchedPair(config: DeviceConfig, hardware: Modem, backfillIMEI: string)
  datatype Resolution = Resolution(
    matched: seq<MatchedPair>, unmatched: seq<Modem>, offline: seq<DeviceConfig>, degraded: seq<Modem>)

  // ---- identity, rank and path ---------------------------------------------------

  function Digits(raw: string): string {
    if raw == "" then ""
    else Digits(raw[..|raw| - 1]) + if '0' <= raw[|raw| - 1] <= '9' then [raw[|raw| - 1]] else ""
  }

  /** TAC and SNR: the first 14 digits, or nothing. */
  function NormalizeIMEI(raw: string): string {
    if |Digits(raw)| < 14 then "" else Digits(raw)[..14]
  }

  function Key(hw: Modem): string { NormalizeIMEI(hw.imei) }
  function ConfigKey(cfg: DeviceConfig): string { NormalizeIMEI(cfg.imei) }

  function CompositionRank(mode: string): nat {
    match Lower(Trim(mode))
    case "qmi" => 5
    case "mbim" => 4
    case "ncm" => 3
    case "ecm" => 2
    case "rndis" => 1
    case _ => 0
  }

  /** Two known USB paths decide; otherwise the control device or the interface may. */
  predicate LegacyPathMatch(cfg: DeviceConfig, hw: Modem) {
    if Trim(cfg.usbPath) != "" && Trim(hw.usbPath) != "" then Trim(cfg.usbPath) == Trim(hw.usbPath)
    else
      || (Trim(cfg.controlDevice) != "" && Trim(cfg.controlDevice) == Trim(hw.controlPath))
      || (Trim(cfg.iface) != "" && Trim(cfg.iface) == Trim(hw.netInterface))
  }

  // ---- one modem per IMEI ----------------------------------------------------------

  /** A position that opens a slot: no IMEI, or the first one with its IMEI. */
  predicate Opens(hw: seq<Modem>, i: nat)
    requires i < |hw|
  {
    Key(hw[i]) == "" || forall j :: 0 <= j < i ==> Key(hw[j]) != Key(hw[i])
  }

  function Slots(hw: seq<Modem>): (s: seq<nat>)
    ensures forall k :: 0 <= k < |s| ==> s[k] < |hw| && Opens(hw, s[k])
    ensures forall k, l :: 0 <= k < l < |s| ==> s[k] < s[l]
    ensures forall i :: 0 <= i < |hw| && Opens(hw, i) ==> i in s
  {
    if hw == [] then []
    else
      var init := Slots(hw[..|hw| - 1]);
      assert forall i :: 0 <= i < |hw| - 1 ==> (Opens(hw, i) <==> Opens(hw[..|hw| - 1], i));
      if Opens(hw, |hw| - 1) then init + [|hw| - 1] else init
  }

  /** i is the position of the best composition of its modem: highest rank, earliest among
      equals. */
  predicate BestAt(hw: seq<Modem>, i: nat)
    requires i < |hw|
  {
    forall j :: 0 <= j < |hw| && Key(hw[j]) == Key(hw[i]) ==>
      && CompositionRank(hw[j].mode) <= CompositionRank(hw[i].mode)
      && (j < i ==> CompositionRank(hw[j].mode) < CompositionRank(hw[i].mode))
  }

  /** What a slot holds: the modem itself without IMEI, else the best composition. */
  ghost predicate Fills(hw: seq<Modem>, i: nat, chosen: Modem)
    requires i < |hw|
  {
    if Key(hw[i]) == "" then chosen == hw[i]
    else exists j :: 0 <= j < |hw| && hw[j] == chosen && Key(hw[j]) == Key(hw[i]) && BestAt(hw, j)
  }

  /** The list after deduplication: one entry per slot, in the order of first occurrence. */
  ghost predicate IsDeduped(hw: seq<Modem>, out: seq<Modem>) {
    |out| == |Slots(hw)| && forall k :: 0 <= k < |out| ==> Fills(hw, Slots(hw)[k], out[k])
  }

  /** Adding a composition of an IMEI that is new, or a modem without IMEI, leaves the
      other slots as they are. */
  lemma FillsKept(hw: seq<Modem>, h: Modem, i: nat, chosen: Modem)
    requires i < |hw| && Fills(hw, i, chosen)
    requires Key(h) != Key(hw[i]) || Key(hw[i]) == ""
    ensures Fills(hw + [h], i, chosen)
  {
    hide NormalizeIMEI, CompositionRank;
    if Key(hw[i]) != "" {
      var j :| 0 <= j < |hw| && hw[j] == chosen && Key(hw[j]) == Key(hw[i]) && BestAt(hw, j);
      assert (hw + [h])[j] == chosen && BestAt(hw + [h], j);
    }
  }

  /** A composition of a known IMEI replaces the chosen one exactly when it ranks higher. */
  lemma FillsUpdated(hw: seq<Modem>, h: Modem, i: nat, chosen: Modem)
    requires i < |hw| && Fills(hw, i, chosen)
    requires Key(h) == Key(hw[i]) != ""
    ensures Fills(hw + [h], i, if CompositionRank(h.mode) > CompositionRank(chosen.mode) then h else chosen)
  {
    hide NormalizeIMEI, CompositionRank;
    var j :| 0 <= j < |hw| && hw[j] == chosen && Key(hw[j]) == Key(hw[i]) && BestAt(hw, j);
    if CompositionRank(h.mode) > CompositionRank(chosen.mode) {
      assert (hw + [h])[|hw|] == h && BestAt(hw + [h], |hw|);
    } else {
      assert (hw + [h])[j] == chosen && BestAt(hw + [h], j);
    }
  }

  lemma SlotsOfOneMore(hw: seq<Modem>, h: Modem)
    ensures Slots(hw + [h]) == if Opens(hw + [h], |hw|) then Slots(hw) + [|hw|] else Slots(hw)
  {
    hide Key, Opens;
    assert (hw + [h])[..|hw|] == hw;
  }

  /** The index from IMEI keys to positions in the output. */
  ghost predicate Indexes(primaryIdx: map<string, nat>, hw: seq<Modem>) {
    && (forall i :: 0 <= i < |hw| && Key(hw[i]) != "" ==> Key(hw[i]) in primaryIdx)
    && (forall key :: key in primaryIdx ==>
          key != "" && primaryIdx[key] < |Slots(hw)| && Key(hw[Slots(hw)[primaryIdx[key]]]) == key)
  }

  lemma OpenSlot(hw: seq<Modem>, out: seq<Modem>, idx: map<string, nat>, h: Modem)
    requires IsDeduped(hw, out) && Indexes(idx, hw)
    requires Key(h) == "" || Key(h) !in idx
    ensures IsDeduped(hw + [h], out + [h])
    ensures Indexes(if Key(h) == "" then idx else idx[Key(h) := |out|], hw + [h])
  {
    OpensSlot(hw, idx, h);
    SlotFilled(hw, out, h);
    SlotIndexed(hw, idx, h);
    hide Key, Slots, Indexes;
  }

  lemma OpensSlot(hw: seq<Modem>, idx: map<string, nat>, h: Modem)
    requires Indexes(idx, hw) && (Key(h) == "" || Key(h) !in idx)
    ensures forall j :: 0 <= j < |hw| && Key(h) != "" ==> Key(hw[j]) != Key(h)
    ensures Slots(hw + [h]) == Slots(hw) + [|hw|]
  {
    hide Key, Slots;
    assert Opens(hw + [h], |hw|);
    SlotsOfOneMore(hw, h);
  }

  lemma SlotFilled(hw: seq<Modem>, out: seq<Modem>, h: Modem)
    requires IsDeduped(hw, out) && Slots(hw + [h]) == Slots(hw) + [|hw|]
    requires forall j :: 0 <= j < |hw| && Key(h) != "" ==> Key(hw[j]) != Key(h)
    ensures IsDeduped(hw + [h], out + [h])
  {
    hide Key, Slots, Fills;
    FillsNew(hw, h);
    forall k | 0 <= k < |out| ensures Fills(hw + [h], Slots(hw + [h])[k], (out + [h])[k]) {
      FillsKept(hw, h, Slots(hw)[k], out[k]);
    }
  }

  lemma SlotIndexed(hw: seq<Modem>, idx: map<string, nat>, h: Modem)
    requires Indexes(idx, hw) && Slots(hw + [h]) == Slots(hw) + [|hw|]
    ensures Indexes(if Key(h) == "" then idx else idx[Key(h) := |Slots(hw)|], hw + [h])
  {
    hide Key, Slots;
  }

  lemma FillsNew(hw: seq<Modem>, h: Modem)
    requires forall j :: 0 <= j < |hw| && Key(h) != "" ==> Key(hw[j]) != Key(h)
    ensures Fills(hw + [h], |hw|, h)
  {
    hide Key, CompositionRank;
    assert (hw + [h])[|hw|] == h && (Key(h) != "" ==> BestAt(hw + [h], |hw|));
  }

  lemma KeepSlot(hw: seq<Modem>, out: seq<Modem>, idx: map<string, nat>, h: Modem)
    requires IsDeduped(hw, out) && Indexes(idx, hw)
    requires Key(h) != "" && Key(h) in idx
    ensures idx[Key(h)] < |out|
    ensures var was := out[idx[Key(h)]];
      IsDeduped(hw + [h], if CompositionRank(h.mode) > CompositionRank(was.mode) then out[idx[Key(h)] := h] else out)
    ensures Indexes(idx, hw + [h])
  {
    hide Key, CompositionRank, Slots, Fills;
    var both, at := hw + [h], idx[Key(h)];
    SlotsUnchanged(hw, h, at);
    var out' := if CompositionRank(h.mode) > CompositionRank(out[at].mode) then out[at := h] else out;
    forall k | 0 <= k < |out| ensures Fills(both, Slots(both)[k], out'[k]) {
      if k == at {
        FillsUpdated(hw, h, Slots(hw)[at], out[at]);
      } else {
        SlotsDiffer(hw, k, at);
        FillsKept(hw, h, Slots(hw)[k], out[k]);
      }
    }
  }

  lemma SlotsUnchanged(hw: seq<Modem>, h: Modem, at: nat)
    requires at < |Slots(hw)| && Key(hw[Slots(hw)[at]]) == Key(h) != ""
    ensures Slots(hw + [h]) == Slots(hw)
  {
    hide Key, Slots;
    assert (hw + [h])[Slots(hw)[at]] == hw[Slots(hw)[at]];
    SlotsOfOneMore(hw, h);
  }

  /** Two slots never share an IMEI. */
  lemma SlotsDiffer(hw: seq<Modem>, k: nat, l: nat)
    requires k < |Slots(hw)| && l < |Slots(hw)| && k != l
    ensures Key(hw[Slots(hw)[k]]) != Key(hw[Slots(hw)[l]]) || Key(hw[Slots(hw)[k]]) == ""
  {
    hide Key, Slots;
    var a, b := Slots(hw)[k], Slots(hw)[l];
    assert Opens(hw, a) && Opens(hw, b);
  }

  method DedupeCompositions(hardware: seq<Modem>) returns (out: seq<Modem>)
    ensures IsDeduped(hardware, out)
  {
    hide NormalizeIMEI, CompositionRank, Slots, IsDeduped, Indexes;
    var primaryIdx: map<string, nat> := map[];
    out := [];
    NothingToDedupe();
    var n := 0;
    while n < |hardware|
      invariant n <= |hardware|
      invariant IsDeduped(hardware[..n], out) && Indexes(primaryIdx, hardware[..n])
    {
      var hw := hardware[n];
      var key := Key(hw);
      assert hardware[..n + 1] == hardware[..n] + [hw];
      if key != "" && key in primaryIdx {
        KeepSlot(hardware[..n], out, primaryIdx, hw);
        var idx := primaryIdx[key];
        if CompositionRank(hw.mode) > CompositionRank(out[idx].mode) {
          out := out[idx := hw];
        }
      } else {
        OpenSlot(hardware[..n], out, primaryIdx, hw);
        if key != "" {
          primaryIdx := primaryIdx[key := |out|];
        }
        out := out + [hw];
      }
      n := n + 1;
    }
    assert hardware[..n] == hardware;
  }

  lemma NothingToDedupe()
    ensures IsDeduped([], []) && Indexes(map[], [])
  {}

  // ---- the three rounds --------------------------------------------------------------

  /** The configuration that owns an IMEI: the first one with that key. */
  function Owner(configured: seq<DeviceConfig>, key: string): Option<DeviceConfig> {
    if configured == [] || key == "" then None
    else if Owner(configured[..|configured| - 1], key).Some? then Owner(configured[..|configured| - 1], key)
    else if ConfigKey(configured[|configured| - 1]) == key then Some(configured[|configured| - 1])
    else None
  }

  function Legacy(configured: seq<DeviceConfig>): seq<DeviceConfig> {
    if configured == [] then []
    else Legacy(configured[..|configured| - 1]) +
         if ConfigKey(configured[|configured| - 1]) == "" then [configured[|configured| - 1]] else []
  }

  function UsedIds(pairs: seq<MatchedPair>): set<string> { set p | p in pairs :: p.config.id }

  function NotUsed(configured: seq<DeviceConfig>, used: set<string>): seq<DeviceConfig> {
    if configured == [] then []
    else NotUsed(configured[..|configured| - 1], used) +
         if configured[|configured| - 1].id in used then [] else [configured[|configured| - 1]]
  }

  /** The first legacy configuration that is free and matches the path. */
  function FirstFree(legacy: seq<DeviceConfig>, used: set<string>, hw: Modem): Option<DeviceConfig> {
    if legacy == [] then None
    else if FirstFree(legacy[..|legacy| - 1], used, hw).Some? then FirstFree(legacy[..|legacy| - 1], used, hw)
    else if legacy[|legacy| - 1].id !in used && LegacyPathMatch(legacy[|legacy| - 1], hw)
    then Some(legacy[|legacy| - 1]) else None
  }

  /** Round one: pairs by IMEI, the modems whose IMEI nobody owns, the modems without. */
  datatype ByIMEI = ByIMEI(pairs: seq<MatchedPair>, strays: seq<Modem>, imeiless: seq<Modem>)

  function RoundOne(configured: seq<DeviceConfig>, hws: seq<Modem>): ByIMEI {
    if hws == [] then ByIMEI([], [], [])
    else
      var r, hw := RoundOne(configured, hws[..|hws| - 1]), hws[|hws| - 1];
      if Key(hw) == "" then r.(imeiless := r.imeiless + [hw])
      else match Owner(configured, Key(hw))
           case Some(cfg) => r.(pairs := r.pairs + [MatchedPair(cfg, hw, "")])
           case None => r.(strays := r.strays + [hw])
  }

  /** Rounds two and three: legacy configurations by path.  Only a modem with an IMEI has one
      to write back. */
  datatype ByPath = ByPath(pairs: seq<MatchedPair>, left: seq<Modem>)

  function PathRound(legacy: seq<DeviceConfig>, pairs: seq<MatchedPair>, hws: seq<Modem>): ByPath {
    if hws == [] then ByPath(pairs, [])
    else
      var r, hw := PathRound(legacy, pairs, hws[..|hws| - 1]), hws[|hws| - 1];
      match FirstFree(legacy, UsedIds(r.pairs), hw)
      case Some(cfg) => r.(pairs := r.pairs + [MatchedPair(cfg, hw, if Key(hw) == "" then "" else Trim(hw.imei))])
      case None => r.(left := r.left + [hw])
  }

  function RoundTwo(configured: seq<DeviceConfig>, primaries: seq<Modem>): ByPath {
    PathRound(Legacy(configured), RoundOne(configured, primaries).pairs, RoundOne(configured, primaries).strays)
  }

  function RoundThree(configured: seq<DeviceConfig>, primaries: seq<Modem>): ByPath {
    PathRound(Legacy(configured), RoundTwo(configured, primaries).pairs, RoundOne(configured, primaries).imeiless)
  }

  function Resolve(primaries: seq<Modem>, configured: seq<DeviceConfig>): Resolution {
    var r2, r3 := RoundTwo(configured, primaries), RoundThree(configured, primaries);
    Resolution(r3.pairs, r2.left, NotUsed(configured, UsedIds(r3.pairs)), r3.left)
  }

  // ---- the algorithm -------------------------------------------------------------------

  method TakeLegacyConfig(legacyConfigs: seq<DeviceConfig>, used: set<string>, hw: Modem)
    returns (cfg: Option<DeviceConfig>, used': set<string>)
    ensures cfg == FirstFree(legacyConfigs, used, hw)
    ensures used' == if cfg.Some? then used + {cfg.value.id} else used
  {
    hide LegacyPathMatch;
    var i := 0;
    while i < |legacyConfigs|
      invariant i <= |legacyConfigs| && FirstFree(legacyConfigs[..i], used, hw) == None
    {
      var c := legacyConfigs[i];
      assert legacyConfigs[..i + 1][..i] == legacyConfigs[..i];
      if c.id !in used && LegacyPathMatch(c, hw) {
        FoundStays(legacyConfigs, i + 1, used, hw);
        return Some(c), used + {c.id};
      }
      i := i + 1;
    }
    assert legacyConfigs[..i] == legacyConfigs;
    return None, used;
  }

  lemma {:induction false} FoundStays(legacy: seq<DeviceConfig>, n: nat, used: set<string>, hw: Modem)
    requires n <= |legacy| && FirstFree(legacy[..n], used, hw).Some?
    ensures FirstFree(legacy, used, hw) == FirstFree(legacy[..n], used, hw)
  {
    hide LegacyPathMatch;
    if n == |legacy| {
      assert legacy[..n] == legacy;
    } else {
      assert legacy[..|legacy| - 1][..n] == legacy[..n];
      FoundStays(legacy[..|legacy| - 1], n, used, hw);
    }
  }

  lemma UsedIdsOfOneMore(pairs: seq<MatchedPair>, p: MatchedPair)
    ensures UsedIds(pairs + [p]) == UsedIds(pairs) + {p.config.id}
  {
    forall id ensures id in UsedIds(pairs + [p]) <==> id in UsedIds(pairs) + {p.config.id} {
      if id in UsedIds(pairs) {
        var q :| q in pairs && q.config.id == id;
        assert q in pairs + [p];
      }
      assert p in pairs + [p];
    }
  }

  /** The map the first loop builds answers every IMEI with its owner. */
  ghost predicate Owns(configByIMEI: map<string, DeviceConfig>, configured: seq<DeviceConfig>) {
    forall key :: (if key in configByIMEI then Some(configByIMEI[key]) else None) == Owner(configured, key)
  }

  method IndexConfigs(configured: seq<DeviceConfig>)
    returns (configByIMEI: map<string, DeviceConfig>, legacyConfigs: seq<DeviceConfig>)
    ensures Owns(configByIMEI, configured) && legacyConfigs == Legacy(configured)
  {
    hide NormalizeIMEI;
    configByIMEI, legacyConfigs := map[], [];
    var i := 0;
    while i < |configured|
      invariant i <= |configured|
      invariant Owns(configByIMEI, configured[..i]) && legacyConfigs == Legacy(configured[..i])
    {
      var cfg := configured[i];
      var key := ConfigKey(cfg);
      assert configured[..i + 1][..i] == configured[..i];
      if key != "" {
        if key !in configByIMEI {
          configByIMEI := configByIMEI[key := cfg];
        }
      } else {
        legacyConfigs := legacyConfigs + [cfg];
      }
      i := i + 1;
    }
    assert configured[..i] == configured;
  }

  method MatchByPath(legacyConfigs: seq<DeviceConfig>, pairs: seq<MatchedPair>, used0: set<string>, hws: seq<Modem>)
    returns (matched: seq<MatchedPair>, left: seq<Modem>, used: set<string>)
    requires used0 == UsedIds(pairs)
    ensures ByPath(matched, left) == PathRound(legacyConfigs, pairs, hws)
    ensures used == UsedIds(matched)
  {
    hide NormalizeIMEI, Trim, FirstFree, UsedIds;
    matched, left, used := pairs, [], used0;
    var i := 0;
    while i < |hws|
      invariant i <= |hws| && used == UsedIds(matched)
      invariant ByPath(matched, left) == PathRound(legacyConfigs, pairs, hws[..i])
    {
      var hw := hws[i];
      assert hws[..i + 1][..i] == hws[..i];
      var cfg;
      cfg, used := TakeLegacyConfig(legacyConfigs, used, hw);
      if cfg.Some? {
        var pair := MatchedPair(cfg.value, hw, if Key(hw) == "" then "" else Trim(hw.imei));
        UsedIdsOfOneMore(matched, pair);
        matched := matched + [pair];
      } else {
        left := left + [hw];
      }
      i := i + 1;
    }
    assert hws[..i] == hws;
  }

  method MatchByIMEI(configured: seq<DeviceConfig>, configByIMEI: map<string, DeviceConfig>, hardware: seq<Modem>)
    returns (matched: seq<MatchedPair>, strays: seq<Modem>, imeiless: seq<Modem>, used: set<string>)
    requires Owns(configByIMEI, configured)
    ensures ByIMEI(matched, strays, imeiless) == RoundOne(configured, hardware)
    ensures used == UsedIds(matched)
  {
    hide NormalizeIMEI, Owner, UsedIds;
    matched, strays, imeiless, used := [], [], [], {};
    assert UsedIds([]) == {} by { NobodyUsed(); }
    var i := 0;
    while i < |hardware|
      invariant i <= |hardware| && used == UsedIds(matched)
      invariant ByIMEI(matched, strays, imeiless) == RoundOne(configured, hardware[..i])
    {
      var hw := hardware[i];
      var key := Key(hw);
      assert hardware[..i + 1][..i] == hardware[..i];
      assert (if key in configByIMEI then Some(configByIMEI[key]) else None) == Owner(configured, key);
      if key == "" {
        imeiless := imeiless + [hw];
      } else if key in configByIMEI {
        var cfg := configByIMEI[key];
        UsedIdsOfOneMore(matched, MatchedPair(cfg, hw, ""));
        matched := matched + [MatchedPair(cfg, hw, "")];
        used := used + {cfg.id};
      } else {
        strays := strays + [hw];
      }
      i := i + 1;
    }
    assert hardware[..i] == hardware;
  }

  lemma NobodyUsed()
    ensures UsedIds([]) == {}
  {}

  method ResolveDeviceIdentities(hardware: seq<Modem>, configured: seq<DeviceConfig>)
    returns (result: Resolution, primaries: seq<Modem>)
    ensures IsDeduped(hardware, primaries)
    ensures result == Resolve(primaries, configured)
  {
    hide IsDeduped, Owns, RoundOne, PathRound, Legacy, UsedIds;
    primaries := DedupeCompositions(hardware);
    var configByIMEI, legacyConfigs := IndexConfigs(configured);
    var matched, strays, imeiless, used := MatchByIMEI(configured, configByIMEI, primaries);
    var unmatched, degraded;
    matched, unmatched, used := MatchByPath(legacyConfigs, matched, used, strays);
    matched, degraded, used := MatchByPath(legacyConfigs, matched, used, imeiless);
    var offline: seq<DeviceConfig> := [];
    var i := 0;
    while i < |configured|
      invariant i <= |configured| && offline == NotUsed(configured[..i], used)
    {
      assert configured[..i + 1][..i] == configured[..i];
      if configured[i].id !in used {
        offline := offline + [configured[i]];
      }
      i := i + 1;
    }
    assert configured[..i] == configured;
    result := Resolution(matched, unmatched, offline, degraded);
  }
}
