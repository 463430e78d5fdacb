/** What the identity resolver promises: nothing is lost, nothing is stolen, nothing that
    could be matched is left over, and an identity once written back is permanent. */
module IdentityTheorems {
  import opened Common
  import opened Text
  import opened IdentityResolver

  function Hardware(pairs: seq<MatchedPair>): seq<Modem> {
    seq(|pairs|, i requires 0 <= i < |pairs| => pairs[i].hardware)
  }

  function Configs(pairs: seq<MatchedPair>): seq<DeviceConfig> {
    seq(|pairs|, i requires 0 <= i < |pairs| => pairs[i].config)
  }

  ghost predicate DistinctIds(configured: seq<DeviceConfig>) {
    forall i, j :: 0 <= i < j < |configured| ==> configured[i].id != configured[j].id
  }

  /** At most one entry per IMEI. */
  ghost predicate DistinctKeys(hws: seq<Modem>) {
    forall i, j :: 0 <= i < j < |hws| && Key(hws[i]) != "" ==> Key(hws[i]) != Key(hws[j])
  }

  // ---- deduplication -----------------------------------------------------------------

  lemma FilledKey(hw: seq<Modem>, i: nat, chosen: Modem)
    requires i < |hw| && Fills(hw, i, chosen)
    ensures Key(chosen) == Key(hw[i]) && chosen in hw
  {
    hide Key, CompositionRank;
  }

  /** After deduplication an IMEI occurs once at most, every IMEI found is still there, and
      modems without an IMEI are all kept. */
  lemma DedupedKeys(hw: seq<Modem>, out: seq<Modem>)
    requires IsDeduped(hw, out)
    ensures DistinctKeys(out)
    ensures forall i :: 0 <= i < |hw| && Key(hw[i]) == "" ==> hw[i] in out
    ensures forall i :: 0 <= i < |hw| ==> exists k :: 0 <= k < |out| && Key(out[k]) == Key(hw[i])
  {
    hide Key, Fills, Slots;
    var s := Slots(hw);
    forall k | 0 <= k < |out| ensures Key(out[k]) == Key(hw[s[k]]) {
      FilledKey(hw, s[k], out[k]);
    }
    forall i, j | 0 <= i < j < |out| && Key(out[i]) != "" ensures Key(out[i]) != Key(out[j]) {
      SlotsDiffer(hw, i, j);
    }
    forall i | 0 <= i < |hw| && Key(hw[i]) == "" ensures hw[i] in out {
      ImeilessIsKept(hw, out, i);
    }
    forall i | 0 <= i < |hw| ensures exists k :: 0 <= k < |out| && Key(out[k]) == Key(hw[i]) {
      var first := FirstWithKey(hw, i);
      var k :| 0 <= k < |s| && s[k] == first;
      assert Key(out[k]) == Key(hw[i]);
    }
  }

  lemma ImeilessIsKept(hw: seq<Modem>, out: seq<Modem>, i: nat)
    requires IsDeduped(hw, out) && i < |hw| && Key(hw[i]) == ""
    ensures hw[i] in out
  {
    hide Key, Slots;
    assert Opens(hw, i);
    var k :| 0 <= k < |Slots(hw)| && Slots(hw)[k] == i;
    assert out[k] == hw[i];
  }

  lemma {:induction false} FirstWithKey(hw: seq<Modem>, i: nat) returns (k: nat)
    requires i < |hw|
    ensures k <= i && Key(hw[k]) == Key(hw[i]) && Opens(hw, k)
  {
    hide Key;
    if Opens(hw, i) {
      k := i;
    } else {
      var j :| 0 <= j < i && Key(hw[j]) == Key(hw[i]);
      k := FirstWithKey(hw, j);
    }
  }

  /** The outcome of a deduplication is determined. */
  lemma DedupedIsUnique(hw: seq<Modem>, out: seq<Modem>, out': seq<Modem>)
    requires IsDeduped(hw, out) && IsDeduped(hw, out')
    ensures out == out'
  {
    hide Key, CompositionRank, Slots;
    forall k | 0 <= k < |out| ensures out[k] == out'[k] {
      var i := Slots(hw)[k];
      if Key(hw[i]) != "" {
        var a :| 0 <= a < |hw| && hw[a] == out[k] && Key(hw[a]) == Key(hw[i]) && BestAt(hw, a);
        var b :| 0 <= b < |hw| && hw[b] == out'[k] && Key(hw[b]) == Key(hw[i]) && BestAt(hw, b);
      }
    }
  }

  const PREFERENCE: seq<string> := ["qmi", "mbim", "ncm", "ecm", "rndis"]

  lemma RankIsPreference(mode: string)
    ensures forall n :: 0 <= n < 5 ==> (CompositionRank(mode) == 5 - n <==> Lower(Trim(mode)) == PREFERENCE[n])
    ensures CompositionRank(mode) <= 5
  {}

  /** Upper case and blanks around it do not matter. */
  lemma WrittenAnyhow()
    ensures CompositionRank(" QMI ") == CompositionRank("Qmi") == CompositionRank("qmi") == 5
  {
    var s := " QMI ";
    assert s[1..] == "QMI " && "QMI "[..3] == "QMI";
    assert Trim(s) == "QMI" && Trim("Qmi") == "Qmi" && Trim("qmi") == "qmi" by {
      assert TrimLeft(s) == "QMI ";
    }
    hide Trim;
    assert Lower("QMI") == Lower("Qmi") == Lower("qmi") == "qmi";
  }

  /** Of the compositions of one modem the preferred one is kept: QMI before MBIM, NCM, ECM
      and RNDIS, however the mode is written. */
  lemma PreferredIsKept(hw: seq<Modem>, out: seq<Modem>, k: nat, i: nat, n: nat)
    requires IsDeduped(hw, out) && k < |out| && i < |hw| && Key(out[k]) == Key(hw[i]) != ""
    requires n < 5 && Lower(Trim(hw[i].mode)) == PREFERENCE[n]
    ensures exists m :: 0 <= m <= n && Lower(Trim(out[k].mode)) == PREFERENCE[m]
  {
    hide Key, Slots, CompositionRank, Trim, Lower;
    FilledKey(hw, Slots(hw)[k], out[k]);
    RankIsPreference(hw[i].mode);
    RankIsPreference(out[k].mode);
    var j :| 0 <= j < |hw| && hw[j] == out[k] && Key(hw[j]) == Key(out[k]) && BestAt(hw, j);
    assert CompositionRank(hw[i].mode) == 5 - n <= CompositionRank(out[k].mode);
    assert Lower(Trim(out[k].mode)) == PREFERENCE[5 - CompositionRank(out[k].mode)];
  }

  // ---- nothing is lost -----------------------------------------------------------------

  lemma HardwareOfOneMore(pairs: seq<MatchedPair>, p: MatchedPair)
    ensures Hardware(pairs + [p]) == Hardware(pairs) + [p.hardware]
  {}

  lemma {:induction false} RoundOneKeepsAll(configured: seq<DeviceConfig>, hws: seq<Modem>)
    ensures var r := RoundOne(configured, hws);
      multiset(Hardware(r.pairs)) + multiset(r.strays) + multiset(r.imeiless) == multiset(hws)
  {
    hide Key, Owner, Hardware;
    if hws == [] {
      NoPairs();
    } else {
      var init, hw := hws[..|hws| - 1], hws[|hws| - 1];
      RoundOneKeepsAll(configured, init);
      assert hws == init + [hw];
      var r := RoundOne(configured, init);
      if Owner(configured, Key(hw)).Some? {
        HardwareOfOneMore(r.pairs, MatchedPair(Owner(configured, Key(hw)).value, hw, ""));
      }
    }
  }

  lemma NoPairs()
    ensures Hardware([]) == []
  {}

  lemma {:induction false} PathRoundKeepsAll(legacy: seq<DeviceConfig>, pairs: seq<MatchedPair>, hws: seq<Modem>)
    ensures var r := PathRound(legacy, pairs, hws);
      multiset(Hardware(r.pairs)) + multiset(r.left) == multiset(Hardware(pairs)) + multiset(hws)
  {
    hide Key, FirstFree, Hardware, UsedIds, Trim;
    if hws != [] {
      var init, hw := hws[..|hws| - 1], hws[|hws| - 1];
      PathRoundKeepsAll(legacy, pairs, init);
      assert hws == init + [hw];
      var r, r' := PathRound(legacy, pairs, init), PathRound(legacy, pairs, hws);
      var c := FirstFree(legacy, UsedIds(r.pairs), hw);
      Moved(multiset(Hardware(r.pairs)), multiset(r.left), multiset(Hardware(pairs)), multiset(init), hw);
      assert multiset(hws) == multiset(init) + multiset{hw};
      if c.Some? {
        var p := MatchedPair(c.value, hw, if Key(hw) == "" then "" else Trim(hw.imei));
        HardwareOfOneMore(r.pairs, p);
        assert r'.pairs == r.pairs + [p];
        assert multiset(Hardware(r'.pairs)) == multiset(Hardware(r.pairs)) + multiset{hw};
      } else {
        assert multiset(r'.left) == multiset(r.left) + multiset{hw};
      }
    }
  }

  lemma Moved(a: multiset<Modem>, l: multiset<Modem>, b: multiset<Modem>, h: multiset<Modem>, x: Modem)
    requires a + l == b + h
    ensures (a + multiset{x}) + l == b + (h + multiset{x})
    ensures a + (l + multiset{x}) == b + (h + multiset{x})
  {
    assert a + (l + multiset{x}) == (a + l) + multiset{x};
    assert (a + multiset{x}) + l == (a + l) + multiset{x};
    assert b + (h + multiset{x}) == (b + h) + multiset{x};
  }

  /** Every modem ends up in exactly one of matched, unmatched and degraded. */
  lemma EveryModemOnce(primaries: seq<Modem>, configured: seq<DeviceConfig>)
    ensures var r := Resolve(primaries, configured);
      multiset(Hardware(r.matched)) + multiset(r.unmatched) + multiset(r.degraded) == multiset(primaries)
  {
    hide RoundOne, PathRound, Hardware;
    var r1, r2, r3 := RoundOne(configured, primaries), RoundTwo(configured, primaries), RoundThree(configured,
        primaries);
    RoundOneKeepsAll(configured, primaries);
    PathRoundKeepsAll(Legacy(configured), r1.pairs, r1.strays);
    PathRoundKeepsAll(Legacy(configured), r2.pairs, r1.imeiless);
    Accounts(multiset(Hardware(r1.pairs)), multiset(r1.strays), multiset(r1.imeiless),
             multiset(Hardware(r2.pairs)), multiset(r2.left), multiset(Hardware(r3.pairs)), multiset(r3.left));
  }

  lemma Accounts(a: multiset<Modem>, s: multiset<Modem>, n: multiset<Modem>,
                 b: multiset<Modem>, u: multiset<Modem>, c: multiset<Modem>, d: multiset<Modem>)
    requires b + u == a + s && c + d == b + n
    ensures c + u + d == a + s + n
  {
    forall x ensures (c + u + d)[x] == (a + s + n)[x] {
      assert (b + u)[x] == (a + s)[x] && (c + d)[x] == (b + n)[x];
    }
  }

  // ---- who owns what -------------------------------------------------------------------

  /** The owner of an IMEI is the first configuration that carries it. */
  lemma {:induction false} OwnerIsFirst(configured: seq<DeviceConfig>, key: string)
    ensures Owner(configured, key).None? <==>
            key == "" || forall i :: 0 <= i < |configured| ==> ConfigKey(configured[i]) != key
    ensures Owner(configured, key).Some? ==>
      exists i :: 0 <= i < |configured| && configured[i] == Owner(configured, key).value
          && ConfigKey(configured[i]) == key &&
        forall j :: 0 <= j < i ==> ConfigKey(configured[j]) != key
  {
    hide NormalizeIMEI;
    if configured != [] && key != "" {
      var init := configured[..|configured| - 1];
      OwnerIsFirst(init, key);
      assert forall i :: 0 <= i < |init| ==> init[i] == configured[i];
      if Owner(init, key).Some? {
        var i :| 0 <= i < |init| && init[i] == Owner(init, key).value && ConfigKey(init[i]) == key &&
          forall j :: 0 <= j < i ==> ConfigKey(init[j]) != key;
        assert configured[i] == Owner(configured, key).value;
      }
    }
  }

  lemma {:induction false} FirstFreeIsFree(legacy: seq<DeviceConfig>, used: set<string>, hw: Modem)
    ensures FirstFree(legacy, used, hw).None? <==>
            forall c :: c in legacy && c.id !in used ==> !LegacyPathMatch(c, hw)
    ensures FirstFree(legacy, used, hw).Some? ==>
      var c := FirstFree(legacy, used, hw).value; c in legacy && c.id !in used && LegacyPathMatch(c, hw)
  {
    hide LegacyPathMatch;
    if legacy != [] {
      FirstFreeIsFree(legacy[..|legacy| - 1], used, hw);
      assert legacy == legacy[..|legacy| - 1] + [legacy[|legacy| - 1]];
    }
  }

  lemma {:induction false} LegacyMembers(configured: seq<DeviceConfig>)
    ensures forall c :: c in Legacy(configured) <==> c in configured && ConfigKey(c) == ""
  {
    hide NormalizeIMEI;
    if configured != [] {
      LegacyMembers(configured[..|configured| - 1]);
      assert configured == configured[..|configured| - 1] + [configured[|configured| - 1]];
    }
  }

  lemma {:induction false} NotUsedMembers(configured: seq<DeviceConfig>, used: set<string>)
    ensures forall c :: c in NotUsed(configured, used) <==> c in configured && c.id !in used
  {
    if configured != [] {
      NotUsedMembers(configured[..|configured| - 1], used);
      assert configured == configured[..|configured| - 1] + [configured[|configured| - 1]];
    }
  }

  /** Round one, entry by entry. */
  lemma {:induction false} RoundOneMembers(configured: seq<DeviceConfig>, hws: seq<Modem>)
    ensures var r := RoundOne(configured, hws);
      && (forall p :: p in r.pairs ==>
            p.hardware in hws && Owner(configured, Key(p.hardware)) == Some(p.config) && p.backfillIMEI == "")
      && (forall h :: h in hws && Owner(configured, Key(h)).Some? ==>
            MatchedPair(Owner(configured, Key(h)).value, h, "") in r.pairs)
      && (forall h :: h in r.strays ==> h in hws && Key(h) != "" && Owner(configured, Key(h)).None?)
      && (forall h :: h in r.imeiless ==> h in hws && Key(h) == "")
  {
    hide Key;
    if hws != [] {
      RoundOneMembers(configured, hws[..|hws| - 1]);
      assert hws == hws[..|hws| - 1] + [hws[|hws| - 1]];
      hide Owner;
      OwnerlessKey(configured);
    }
  }

  lemma OwnerlessKey(configured: seq<DeviceConfig>)
    ensures Owner(configured, "").None?
  {}

  /** A pair made in a path round. */
  predicate PathPair(legacy: seq<DeviceConfig>, p: MatchedPair) {
    && p.config in legacy && LegacyPathMatch(p.config, p.hardware)
    && p.backfillIMEI == if Key(p.hardware) == "" then "" else Trim(p.hardware.imei)
  }

  /** A path round only adds pairs, takes only free configurations, and leaves a modem only
      if every configuration that matches it was taken. */
  lemma {:induction false} PathRoundMembers(legacy: seq<DeviceConfig>, pairs: seq<MatchedPair>, hws: seq<Modem>)
    ensures var r := PathRound(legacy, pairs, hws);
      && pairs <= r.pairs
      && (forall i :: |pairs| <= i < |r.pairs| ==>
            && r.pairs[i].hardware in hws && PathPair(legacy, r.pairs[i])
            && forall j :: 0 <= j < i ==> r.pairs[j].config.id != r.pairs[i].config.id)
      && (forall h :: h in r.left ==> h in hws)
      && (forall h, c :: h in r.left && c in legacy && c.id !in UsedIds(r.pairs) ==> !LegacyPathMatch(c, h))
  {
    hide Key, LegacyPathMatch, Trim, FirstFree;
    if hws != [] {
      var init, hw := hws[..|hws| - 1], hws[|hws| - 1];
      PathRoundMembers(legacy, pairs, init);
      assert hws == init + [hw];
      var r := PathRound(legacy, pairs, init);
      FirstFreeIsFree(legacy, UsedIds(r.pairs), hw);
      hide UsedIds;
      var c := FirstFree(legacy, UsedIds(r.pairs), hw);
      if c.Some? {
        var p := MatchedPair(c.value, hw, if Key(hw) == "" then "" else Trim(hw.imei));
        UsedIdsOfOneMore(r.pairs, p);
        forall j | 0 <= j < |r.pairs| ensures r.pairs[j].config.id != c.value.id {
          UsedHas(r.pairs, j);
        }
      }
    }
  }

  lemma UsedHas(pairs: seq<MatchedPair>, j: nat)
    requires j < |pairs|
    ensures pairs[j].config.id in UsedIds(pairs)
  {
    assert pairs[j] in pairs;
  }

  // ---- every configuration once ----------------------------------------------------------

  ghost predicate DistinctConfigIds(pairs: seq<MatchedPair>) {
    forall i, j :: 0 <= i < j < |pairs| ==> pairs[i].config.id != pairs[j].config.id
  }

  lemma {:induction false} CountAtMostOnce<T>(s: seq<T>, x: T)
    requires forall i, j :: 0 <= i < j < |s| ==> s[i] != x || s[j] != x
    ensures multiset(s)[x] == if x in s then 1 else 0
  {
    if s != [] {
      var init, last := s[..|s| - 1], s[|s| - 1];
      CountAtMostOnce(init, x);
      assert s == init + [last];
    }
  }

  lemma CountLast<T>(s: seq<T>, last: T, x: T)
    ensures multiset(s + [last])[x] == multiset(s)[x] + if last == x then 1 else 0
  {}

  lemma NotUsedLast(init: seq<DeviceConfig>, last: DeviceConfig, used: set<string>)
    ensures NotUsed(init + [last], used) ==
              if last.id in used then NotUsed(init, used) else NotUsed(init, used) + [last]
  {
    assert (init + [last])[..|init|] == init;
  }

  lemma {:induction false} CountNotUsed(configured: seq<DeviceConfig>, used: set<string>, x: DeviceConfig)
    ensures multiset(NotUsed(configured, used))[x] == if x.id in used then 0 else multiset(configured)[x]
  {
    if configured != [] {
      hide NotUsed;
      var init, last := configured[..|configured| - 1], configured[|configured| - 1];
      assert configured == init + [last];
      CountNotUsed(init, used, x);
      NotUsedLast(init, last, used);
      CountLast(init, last, x);
      CountLast(NotUsed(init, used), last, x);
    }
  }

  lemma SameConfig(configured: seq<DeviceConfig>, a: DeviceConfig, b: DeviceConfig)
    requires DistinctIds(configured) && a in configured && b in configured && a.id == b.id
    ensures a == b
  {}

  lemma ConfigPartition(pairs: seq<MatchedPair>, configured: seq<DeviceConfig>, x: DeviceConfig)
    requires DistinctIds(configured) && DistinctConfigIds(pairs)
    requires forall p :: p in pairs ==> p.config in configured
    ensures (multiset(Configs(pairs)) + multiset(NotUsed(configured, UsedIds(pairs))))[x] == multiset(configured)[x]
  {
    hide NotUsed;
    var cs := Configs(pairs);
    CountNotUsed(configured, UsedIds(pairs), x);
    CountAtMostOnce(configured, x);
    CountAtMostOnce(cs, x);
    if x.id in UsedIds(pairs) {
      var p :| p in pairs && p.config.id == x.id;
      var i :| 0 <= i < |pairs| && pairs[i] == p;
      assert cs[i] == p.config;
      if x in configured { SameConfig(configured, p.config, x); }
    }
    if x in cs {
      var i :| 0 <= i < |cs| && cs[i] == x;
      UsedHas(pairs, i);
      assert pairs[i] in pairs;
    }
  }

  lemma {:induction false} RoundOneDistinct(configured: seq<DeviceConfig>, hws: seq<Modem>)
    requires DistinctIds(configured) && DistinctKeys(hws)
    ensures DistinctConfigIds(RoundOne(configured, hws).pairs)
  {
    hide Key, Owner, ConfigKey;
    if hws != [] {
      var init, hw := hws[..|hws| - 1], hws[|hws| - 1];
      assert forall i :: 0 <= i < |init| ==> init[i] == hws[i];
      RoundOneDistinct(configured, init);
      var r := RoundOne(configured, init);
      RoundOneMembers(configured, init);
      hide DistinctIds, RoundOne;
      if Owner(configured, Key(hw)).Some? {
        var c := Owner(configured, Key(hw)).value;
        forall i | 0 <= i < |r.pairs| ensures r.pairs[i].config.id != c.id {
          assert r.pairs[i] in r.pairs;
          OwnerlessKey(configured);
          var j :| 0 <= j < |init| && hws[j] == r.pairs[i].hardware;
          OwnersDiffer(configured, Key(r.pairs[i].hardware), Key(hw));
        }
        assert RoundOne(configured, hws).pairs == r.pairs +
            [MatchedPair(c, hw, "")] by { RoundOneStep(configured, hws); }
      } else {
        assert RoundOne(configured, hws).pairs == r.pairs by { RoundOneStep(configured, hws); }
      }
    }
  }

  lemma RoundOneStep(configured: seq<DeviceConfig>, hws: seq<Modem>)
    requires hws != []
    ensures var r, r', hw := RoundOne(configured, hws[..|hws| - 1]), RoundOne(configured, hws), hws[|hws| - 1];
      r'.pairs == match Owner(configured, Key(hw))
                  case Some(c) => r.pairs + [MatchedPair(c, hw, "")]
                  case None => r.pairs
  {
    OwnerlessKey(configured);
  }

  lemma OwnersDiffer(configured: seq<DeviceConfig>, k: string, l: string)
    requires DistinctIds(configured) && k != l && Owner(configured, k).Some? && Owner(configured, l).Some?
    ensures Owner(configured, k).value.id != Owner(configured, l).value.id
  {
    hide Owner, ConfigKey;
    OwnerIsFirst(configured, k);
    OwnerIsFirst(configured, l);
  }

  // ---- the theorems ------------------------------------------------------------------------

  /** Every pair is justified.  A configuration with an IMEI is paired with that IMEI only,
      and is the one that owns it; a configuration without is paired by path, with a modem
      whose IMEI nobody owns, and gets that IMEI written back. */
  ghost predicate Justified(configured: seq<DeviceConfig>, p: MatchedPair) {
    && p.config in configured
    && (ConfigKey(p.config) != "" ==>
          && Key(p.hardware) == ConfigKey(p.config)
          && Owner(configured, Key(p.hardware)) == Some(p.config)
          && p.backfillIMEI == "")
    && (ConfigKey(p.config) == "" ==>
          && LegacyPathMatch(p.config, p.hardware)
          && Owner(configured, Key(p.hardware)).None?
          && p.backfillIMEI == if Key(p.hardware) == "" then "" else Trim(p.hardware.imei))
  }

  lemma EveryPairIsJustified(primaries: seq<Modem>, configured: seq<DeviceConfig>)
    ensures forall p :: p in Resolve(primaries, configured).matched ==> Justified(configured, p)
  {
    hide Key, ConfigKey, Owner, Legacy, LegacyPathMatch, RoundOne, PathRound, Trim;
    var legacy := Legacy(configured);
    var r1, r2, r3 := RoundOne(configured, primaries), RoundTwo(configured, primaries), RoundThree(configured,
        primaries);
    RoundOneMembers(configured, primaries);
    PathRoundMembers(legacy, r1.pairs, r1.strays);
    PathRoundMembers(legacy, r2.pairs, r1.imeiless);
    LegacyMembers(configured);
    OwnerlessKey(configured);
    forall i | 0 <= i < |r3.pairs| ensures Justified(configured, r3.pairs[i]) {
      var p := r3.pairs[i];
      if i < |r1.pairs| {
        assert p == r2.pairs[i] == r1.pairs[i];
        assert p in r1.pairs;
        OwnerIsFirst(configured, Key(p.hardware));
      } else if i < |r2.pairs| {
        assert p == r2.pairs[i];
      }
    }
  }

  /** Every modem whose IMEI is owned is paired with the owner. */
  lemma OwnersAreHonoured(primaries: seq<Modem>, configured: seq<DeviceConfig>, h: Modem)
    requires h in primaries && Owner(configured, Key(h)).Some?
    ensures MatchedPair(Owner(configured, Key(h)).value, h, "") in Resolve(primaries, configured).matched
  {
    hide Key, Owner, Legacy, RoundOne, PathRound;
    var legacy := Legacy(configured);
    var r1, r2 := RoundOne(configured, primaries), RoundTwo(configured, primaries);
    RoundOneMembers(configured, primaries);
    PathRoundMembers(legacy, r1.pairs, r1.strays);
    PathRoundMembers(legacy, r2.pairs, r1.imeiless);
    var p := MatchedPair(Owner(configured, Key(h)).value, h, "");
    var i :| 0 <= i < |r1.pairs| && r1.pairs[i] == p;
    assert RoundThree(configured, primaries).pairs[i] == p;
  }

  lemma PairsHaveDistinctIds(primaries: seq<Modem>, configured: seq<DeviceConfig>)
    requires DistinctIds(configured) && DistinctKeys(primaries)
    ensures DistinctConfigIds(Resolve(primaries, configured).matched)
  {
    hide Key, Legacy, RoundOne, PathRound, PathPair;
    var legacy := Legacy(configured);
    var r1, r2, r3 := RoundOne(configured, primaries), RoundTwo(configured, primaries), RoundThree(configured,
        primaries);
    RoundOneDistinct(configured, primaries);
    PathRoundMembers(legacy, r1.pairs, r1.strays);
    PathRoundMembers(legacy, r2.pairs, r1.imeiless);
    assert DistinctConfigIds(r2.pairs);
  }

  /** With distinct ids every configuration is either matched once or offline once. */
  lemma EveryConfigOnce(hardware: seq<Modem>, primaries: seq<Modem>, configured: seq<DeviceConfig>)
    requires IsDeduped(hardware, primaries) && DistinctIds(configured)
    ensures var r := Resolve(primaries, configured);
      multiset(Configs(r.matched)) + multiset(r.offline) == multiset(configured)
  {
    hide IsDeduped, DistinctKeys, NotUsed, Configs, RoundThree, RoundTwo, Justified;
    DedupedKeys(hardware, primaries);
    PairsHaveDistinctIds(primaries, configured);
    EveryPairIsJustified(primaries, configured);
    var r := Resolve(primaries, configured);
    forall p | p in r.matched ensures p.config in configured {
      assert Justified(configured, p);
      JustifiedIsConfigured(configured, p);
    }
    forall x: DeviceConfig
      ensures (multiset(Configs(r.matched)) + multiset(r.offline))[x] == multiset(configured)[x]
    {
      ConfigPartition(r.matched, configured, x);
    }
  }

  lemma JustifiedIsConfigured(configured: seq<DeviceConfig>, p: MatchedPair)
    requires Justified(configured, p)
    ensures p.config in configured
  {}

  /** The matching is maximal: no left-over modem matches the path of an offline
      configuration without IMEI. */
  lemma NothingLeftToMatch(primaries: seq<Modem>, configured: seq<DeviceConfig>, h: Modem, c: DeviceConfig)
    requires h in Resolve(primaries, configured).unmatched || h in Resolve(primaries, configured).degraded
    requires c in Resolve(primaries, configured).offline && ConfigKey(c) == ""
    ensures !LegacyPathMatch(c, h)
  {
    hide Key, ConfigKey, LegacyPathMatch, Legacy, RoundOne, PathRound, PathPair, NotUsed;
    var legacy := Legacy(configured);
    var r1, r2, r3 := RoundOne(configured, primaries), RoundTwo(configured, primaries), RoundThree(configured,
        primaries);
    LegacyMembers(configured);
    NotUsedMembers(configured, UsedIds(r3.pairs));
    PathRoundMembers(legacy, r1.pairs, r1.strays);
    PathRoundMembers(legacy, r2.pairs, r1.imeiless);
    UsedGrows(r2.pairs, r3.pairs);
  }

  /** What a match by path means.  If the USB path of both is known, they are on the same
      port; otherwise they share a control device or an interface. */
  lemma MatchedByPathMeans(primaries: seq<Modem>, configured: seq<DeviceConfig>, p: MatchedPair)
    requires p in Resolve(primaries, configured).matched && ConfigKey(p.config) == ""
    ensures var c, h := p.config, p.hardware;
      if Blank(c.usbPath) || Blank(h.usbPath) then
        || (!Blank(c.controlDevice) && Trim(c.controlDevice) == Trim(h.controlPath))
        || (!Blank(c.iface) && Trim(c.iface) == Trim(h.netInterface))
      else Trim(c.usbPath) == Trim(h.usbPath)
  {
    EveryPairIsJustified(primaries, configured);
    assert Justified(configured, p);
    hide Resolve, Trim, Key, ConfigKey, Owner;
  }

  /** Conversely a modem and a configuration without IMEI that are both left over share
      neither port nor, where a port is unknown, control device or interface. */
  lemma LeftOversShareNoPath(primaries: seq<Modem>, configured: seq<DeviceConfig>, h: Modem, c: DeviceConfig)
    requires h in Resolve(primaries, configured).unmatched || h in Resolve(primaries, configured).degraded
    requires c in Resolve(primaries, configured).offline && ConfigKey(c) == ""
    ensures if Blank(c.usbPath) || Blank(h.usbPath) then
        && (Blank(c.controlDevice) || Trim(c.controlDevice) != Trim(h.controlPath))
        && (Blank(c.iface) || Trim(c.iface) != Trim(h.netInterface))
      else Trim(c.usbPath) != Trim(h.usbPath)
  {
    NothingLeftToMatch(primaries, configured, h, c);
    hide Resolve, Trim, ConfigKey;
  }

  /** The configuration is listed, and those listed before it are taken already, do not
      match, or have an IMEI. */
  ghost predicate FirstChoice(configured: seq<DeviceConfig>, used: set<string>, c: DeviceConfig, h: Modem) {
    exists n :: 0 <= n < |configured| && configured[n] == c &&
      forall j :: 0 <= j < n ==>
        ConfigKey(configured[j]) != "" || configured[j].id in used || !LegacyPathMatch(configured[j], h)
  }

  lemma {:induction false} FirstFreeIsFirst(configured: seq<DeviceConfig>, used: set<string>, h: Modem)
    ensures var c := FirstFree(Legacy(configured), used, h);
      c.Some? ==> FirstChoice(configured, used, c.value, h)
  {
    hide ConfigKey, LegacyPathMatch;
    if configured != [] {
      var init, last := configured[..|configured| - 1], configured[|configured| - 1];
      FirstFreeIsFirst(init, used, h);
      FirstFreeIsFree(Legacy(init), used, h);
      LegacyMembers(init);
      OneMoreFree(Legacy(init), last, used, h);
      assert Legacy(configured) == if ConfigKey(last) == "" then Legacy(init) + [last] else Legacy(init);
      hide FirstFree;
      if FirstFree(Legacy(init), used, h).Some? {
        StillFirst(init, last, used, FirstFree(Legacy(init), used, h).value, h);
        assert configured == init + [last];
      } else {
        forall j | 0 <= j < |init|
          ensures ConfigKey(configured[j]) != "" || configured[j].id in used || !LegacyPathMatch(configured[j], h)
        {
          assert configured[j] == init[j] && init[j] in init;
        }
        assert configured[|init|] == last;
      }
    }
  }

  lemma OneMoreFree(legacy: seq<DeviceConfig>, c: DeviceConfig, used: set<string>, h: Modem)
    ensures FirstFree(legacy + [c], used, h) ==
              if FirstFree(legacy, used, h).Some? then FirstFree(legacy, used, h)
              else if c.id !in used && LegacyPathMatch(c, h) then Some(c) else None
  {
    hide LegacyPathMatch;
    assert (legacy + [c])[..|legacy|] == legacy;
  }

  lemma StillFirst(init: seq<DeviceConfig>, last: DeviceConfig, used: set<string>, c: DeviceConfig, h: Modem)
    requires FirstChoice(init, used, c, h)
    ensures FirstChoice(init + [last], used, c, h)
  {
    hide ConfigKey, LegacyPathMatch;
    var n :| 0 <= n < |init| && init[n] == c &&
      forall j :: 0 <= j < n ==> ConfigKey(init[j]) != "" || init[j].id in used || !LegacyPathMatch(init[j], h);
    assert (init + [last])[n] == c;
  }

  lemma {:induction false} PathRoundTakesFirst(configured: seq<DeviceConfig>, pairs: seq<MatchedPair>, hws: seq<Modem>)
    ensures var r := PathRound(Legacy(configured), pairs, hws);
      && pairs <= r.pairs
      && forall i :: |pairs| <= i < |r.pairs| ==>
           FirstChoice(configured, UsedIds(r.pairs[..i]), r.pairs[i].config, r.pairs[i].hardware)
  {
    hide Key, ConfigKey, LegacyPathMatch, Trim, FirstFree, Legacy, UsedIds, FirstChoice;
    if hws != [] {
      var init, hw := hws[..|hws| - 1], hws[|hws| - 1];
      PathRoundTakesFirst(configured, pairs, init);
      var r, r' := PathRound(Legacy(configured), pairs, init), PathRound(Legacy(configured), pairs, hws);
      FirstFreeIsFirst(configured, UsedIds(r.pairs), hw);
      forall i | |pairs| <= i < |r'.pairs|
        ensures FirstChoice(configured, UsedIds(r'.pairs[..i]), r'.pairs[i].config, r'.pairs[i].hardware)
      {
        assert i < |r.pairs| ==> r'.pairs[i] == r.pairs[i] && r'.pairs[..i] == r.pairs[..i];
        assert i == |r.pairs| ==> r'.pairs[..i] == r.pairs;
      }
    }
  }

  /** The order of the configurations decides: a match by path takes the first configuration
      without IMEI that matches and was not taken before. */
  lemma FirstMatchWins(primaries: seq<Modem>, configured: seq<DeviceConfig>, i: nat)
    requires i < |Resolve(primaries, configured).matched|
    requires ConfigKey(Resolve(primaries, configured).matched[i].config) == ""
    ensures var matched := Resolve(primaries, configured).matched;
      FirstChoice(configured, UsedIds(matched[..i]), matched[i].config, matched[i].hardware)
  {
    hide Key, Owner, Legacy, LegacyPathMatch, RoundOne, PathRound, UsedIds, FirstChoice;
    var r1, r2, r3 := RoundOne(configured, primaries), RoundTwo(configured, primaries), RoundThree(configured,
        primaries);
    RoundOneMembers(configured, primaries);
    PathRoundTakesFirst(configured, r1.pairs, r1.strays);
    PathRoundTakesFirst(configured, r2.pairs, r1.imeiless);
    if i < |r2.pairs| {
      assert r3.pairs[i] == r2.pairs[i] && r3.pairs[..i] == r2.pairs[..i];
      if i < |r1.pairs| {
        assert r2.pairs[i] == r1.pairs[i] && r1.pairs[i] in r1.pairs;
        OwnerIsFirst(configured, Key(r1.pairs[i].hardware));
        assert false;
      }
    }
  }

  lemma UsedGrows(a: seq<MatchedPair>, b: seq<MatchedPair>)
    requires a <= b
    ensures UsedIds(a) <= UsedIds(b)
  {
    assert forall p :: p in a ==> p in b;
  }

  /** A modem with an IMEI comes first: whatever a modem without IMEI was given, no
      left-over modem with an IMEI matches. */
  lemma IMEIGoesFirst(primaries: seq<Modem>, configured: seq<DeviceConfig>, h: Modem, p: MatchedPair)
    requires h in Resolve(primaries, configured).unmatched
    requires p in Resolve(primaries, configured).matched && Key(p.hardware) == ""
    ensures Key(h) != "" && !LegacyPathMatch(p.config, h)
  {
    hide Key, LegacyPathMatch, Legacy, RoundOne, PathRound, Owner, Trim, UsedIds;
    var legacy := Legacy(configured);
    var r1, r2, r3 := RoundOne(configured, primaries), RoundTwo(configured, primaries), RoundThree(configured,
        primaries);
    RoundOneMembers(configured, primaries);
    OwnerlessKey(configured);
    PathRoundMembers(legacy, r1.pairs, r1.strays);
    PathRoundMembers(legacy, r2.pairs, r1.imeiless);
    forall i | 0 <= i < |r2.pairs| ensures Key(r3.pairs[i].hardware) != "" {
      assert r3.pairs[i] == r2.pairs[i];
      assert i < |r1.pairs| ==> r2.pairs[i] in r1.pairs;
    }
    var i :| 0 <= i < |r3.pairs| && r3.pairs[i] == p;
    NotUsedBefore(r2.pairs, p.config.id);
  }

  lemma NotUsedBefore(pairs: seq<MatchedPair>, id: string)
    requires forall j :: 0 <= j < |pairs| ==> pairs[j].config.id != id
    ensures id !in UsedIds(pairs)
  {}

  // ---- an identity written back is permanent ------------------------------------------------

  lemma {:induction false} DigitsConcat(a: string, b: string)
    ensures Digits(a + b) == Digits(a) + Digits(b)
  {
    if b == "" {
      assert a + b == a;
    } else {
      assert (a + b)[..|a + b| - 1] == a + b[..|b| - 1];
      DigitsConcat(a, b[..|b| - 1]);
    }
  }

  lemma NoDigits(c: char)
    requires IsSpace(c)
    ensures Digits([c]) == ""
  {
    assert [c][..0] == "";
  }

  lemma {:induction false} LeftTrimKeepsDigits(s: string)
    ensures Digits(TrimLeft(s)) == Digits(s)
  {
    if s != "" && IsSpace(s[0]) {
      LeftTrimKeepsDigits(s[1..]);
      assert s == [s[0]] + s[1..];
      DigitsConcat([s[0]], s[1..]);
      NoDigits(s[0]);
    }
  }

  lemma {:induction false} RightTrimKeepsDigits(s: string)
    ensures Digits(TrimRight(s)) == Digits(s)
  {
    if s != "" && IsSpace(s[|s| - 1]) {
      RightTrimKeepsDigits(s[..|s| - 1]);
      NoDigits(s[|s| - 1]);
    }
  }

  predicate IsDigit(c: char) { '0' <= c <= '9' }

  lemma {:induction false} OnlyDigits(d: string)
    requires forall i :: 0 <= i < |d| ==> IsDigit(d[i])
    ensures Digits(d) == d
  {
    if d != "" { OnlyDigits(d[..|d| - 1]); }
  }

  /** The identity of an IMEI is its first 14 digits; whatever stands between the digits does
      not matter, and fewer digits identify nothing. */
  lemma IdentityExactly(a: string, c: char, b: string)
    ensures !IsDigit(c) ==> NormalizeIMEI(a + [c] + b) == NormalizeIMEI(a + b)
    ensures (forall i :: 0 <= i < |a| ==> IsDigit(a[i])) ==>
              NormalizeIMEI(a) == if |a| < 14 then "" else a[..14]
  {
    DigitsConcat(a + [c], b);
    DigitsConcat(a, [c]);
    DigitsConcat(a, b);
    assert [c][..0] == "" && Digits(a) + "" == Digits(a);
    if forall i :: 0 <= i < |a| ==> IsDigit(a[i]) { OnlyDigits(a); }
  }

  /** Trimming an IMEI does not change the identity it stands for. */
  lemma TrimKeepsIdentity(raw: string)
    ensures NormalizeIMEI(Trim(raw)) == NormalizeIMEI(raw)
    ensures NormalizeIMEI(raw) != "" ==> Trim(raw) != ""
  {
    LeftTrimKeepsDigits(raw);
    RightTrimKeepsDigits(TrimLeft(raw));
    hide TrimLeft, TrimRight;
  }

  /** The configuration after the IMEIs found for it have been written back. */
  function Adopted(c: DeviceConfig, pairs: seq<MatchedPair>): (c': DeviceConfig)
    ensures c'.id == c.id
  {
    if pairs == [] then c
    else
      var r, last := Adopted(c, pairs[..|pairs| - 1]), pairs[|pairs| - 1];
      if last.config.id == c.id && last.backfillIMEI != "" then r.(imei := last.backfillIMEI) else r
  }

  function AdoptAll(configured: seq<DeviceConfig>, pairs: seq<MatchedPair>): seq<DeviceConfig> {
    seq(|configured|, i requires 0 <= i < |configured| => Adopted(configured[i], pairs))
  }

  /** What a configuration adopts comes from a pair of its own. */
  lemma {:induction false} AdoptedFrom(c: DeviceConfig, pairs: seq<MatchedPair>)
    ensures Adopted(c, pairs).imei == c.imei ||
      exists i :: 0 <= i < |pairs| && pairs[i].config.id == c.id
          && pairs[i].backfillIMEI == Adopted(c, pairs).imei != ""
  {
    if pairs != [] {
      var init := pairs[..|pairs| - 1];
      AdoptedFrom(c, init);
      assert forall i :: 0 <= i < |init| ==> init[i] == pairs[i];
    }
  }

  lemma {:induction false} AdoptedOwn(p: MatchedPair, i: nat, pairs: seq<MatchedPair>)
    requires DistinctConfigIds(pairs) && i < |pairs| && pairs[i] == p
    ensures Adopted(p.config, pairs).imei == if p.backfillIMEI != "" then p.backfillIMEI else p.config.imei
  {
    var init := pairs[..|pairs| - 1];
    if i == |pairs| - 1 {
      AdoptedFrom(p.config, init);
    } else {
      AdoptedOwn(p, i, init);
    }
  }

  /** The matched configuration now carries the IMEI of its modem. */
  lemma AdoptedKey(configured: seq<DeviceConfig>, p: MatchedPair, i: nat, pairs: seq<MatchedPair>)
    requires Justified(configured, p) && Key(p.hardware) != ""
    requires DistinctConfigIds(pairs) && i < |pairs| && pairs[i] == p
    ensures ConfigKey(Adopted(p.config, pairs)) == Key(p.hardware)
  {
    hide NormalizeIMEI, Owner, LegacyPathMatch, Trim;
    AdoptedOwn(p, i, pairs);
    TrimKeepsIdentity(p.hardware.imei);
  }

  /** No other configuration comes to carry it. */
  lemma {:induction false} AdoptedByNobodyElse(configured: seq<DeviceConfig>, pairs: seq<MatchedPair>, i: nat, n: nat)
    requires DistinctIds(configured) && DistinctKeys(Hardware(pairs)) && forall p :: p in pairs ==>
        Justified(configured, p)
    requires i < |pairs| && Key(pairs[i].hardware) != ""
    requires n < |configured| && configured[n].id != pairs[i].config.id
    ensures ConfigKey(Adopted(configured[n], pairs)) == Key(pairs[i].hardware) ==>
              ConfigKey(configured[n]) == Key(pairs[i].hardware)
  {
    hide NormalizeIMEI, Owner, LegacyPathMatch, Trim;
    var c := configured[n];
    AdoptedFrom(c, pairs);
    if Adopted(c, pairs).imei != c.imei {
      var j :| 0 <= j < |pairs| && pairs[j].config.id == c.id && pairs[j].backfillIMEI == Adopted(c, pairs).imei != "";
      assert Justified(configured, pairs[j]);
      TrimKeepsIdentity(pairs[j].hardware.imei);
      assert Hardware(pairs)[i] == pairs[i].hardware && Hardware(pairs)[j] == pairs[j].hardware;
    }
  }

  /** Nobody in front of the matched configuration carried the IMEI before. */
  lemma {:induction false} NobodyInFront(configured: seq<DeviceConfig>, p: MatchedPair, m: nat, n: nat)
    requires DistinctIds(configured) && Justified(configured, p) && Key(p.hardware) != ""
    requires n < m < |configured| && configured[m] == p.config
    ensures ConfigKey(configured[n]) != Key(p.hardware)
  {
    hide NormalizeIMEI, Owner, LegacyPathMatch, Trim;
    OwnerIsFirst(configured, Key(p.hardware));
  }

  lemma PairedModemsDiffer(hardware: seq<Modem>, primaries: seq<Modem>, configured: seq<DeviceConfig>)
    requires IsDeduped(hardware, primaries)
    ensures DistinctKeys(Hardware(Resolve(primaries, configured).matched))
  {
    hide IsDeduped, Key, Resolve;
    var r := Resolve(primaries, configured);
    var h := Hardware(r.matched);
    DedupedKeys(hardware, primaries);
    EveryModemOnce(primaries, configured);
    assert multiset(h) <= multiset(primaries);
    forall i, j | 0 <= i < j < |h| && Key(h[i]) != "" ensures Key(h[i]) != Key(h[j]) {
      assert h[i] in multiset(primaries) && h[j] in multiset(primaries);
      CountAtMostOnce(primaries, h[i]);
      CountTwo(h, i, j);
    }
  }

  lemma CountTwo(h: seq<Modem>, i: nat, j: nat)
    requires i < j < |h|
    ensures h[i] == h[j] ==> multiset(h)[h[i]] >= 2
  {
    assert h == h[..j] + h[j..];
    assert h[..j][i] == h[i] && h[j..][0] == h[j];
    assert h[i] in multiset(h[..j]) && h[j] in multiset(h[j..]);
  }

  /** After the IMEIs found in one resolution have been written back, the owner of each
      matched IMEI is the configuration it was matched with. */
  lemma OwnerAfterAdoption(hardware: seq<Modem>, primaries: seq<Modem>, configured: seq<DeviceConfig>, p: MatchedPair)
    requires IsDeduped(hardware, primaries) && DistinctIds(configured)
    requires p in Resolve(primaries, configured).matched && Key(p.hardware) != ""
    ensures var pairs := Resolve(primaries, configured).matched;
      Owner(AdoptAll(configured, pairs), Key(p.hardware)) == Some(Adopted(p.config, pairs))
  {
    hide IsDeduped, Key, ConfigKey, Owner, Resolve, Adopted;
    var pairs := Resolve(primaries, configured).matched;
    var after := AdoptAll(configured, pairs);
    var i :| 0 <= i < |pairs| && pairs[i] == p;
    EveryPairIsJustified(primaries, configured);
    PairedModemsDiffer(hardware, primaries, configured);
    DedupedKeys(hardware, primaries);
    PairsHaveDistinctIds(primaries, configured);
    var m :| 0 <= m < |configured| && configured[m] == p.config;
    AdoptedKey(configured, p, i, pairs);
    forall n | 0 <= n < m ensures ConfigKey(after[n]) != Key(p.hardware) {
      NobodyInFront(configured, p, m, n);
      AdoptedByNobodyElse(configured, pairs, i, n);
    }
    assert after[m] == Adopted(p.config, pairs);
    FirstOwns(after, Key(p.hardware), m);
  }

  lemma FirstOwns(configured: seq<DeviceConfig>, key: string, m: nat)
    requires key != "" && m < |configured| && ConfigKey(configured[m]) == key
    requires forall n :: 0 <= n < m ==> ConfigKey(configured[n]) != key
    ensures Owner(configured, key) == Some(configured[m])
  {
    hide ConfigKey, Owner;
    OwnerIsFirst(configured, key);
  }

  /** Identity is permanent.  Whatever paths the modem shows up on later, it is paired with
      the same configuration, by IMEI. */
  lemma IdentityIsPermanent(hardware: seq<Modem>, primaries: seq<Modem>, configured: seq<DeviceConfig>, p: MatchedPair,
                            later: seq<Modem>, h: Modem)
    requires IsDeduped(hardware, primaries) && DistinctIds(configured)
    requires p in Resolve(primaries, configured).matched && Key(p.hardware) != ""
    requires h in later && Key(h) == Key(p.hardware)
    ensures var pairs := Resolve(primaries, configured).matched;
      MatchedPair(Adopted(p.config, pairs), h, "") in Resolve(later, AdoptAll(configured, pairs)).matched
  {
    hide IsDeduped, Key, Resolve, Adopted, AdoptAll, Owner;
    OwnerAfterAdoption(hardware, primaries, configured, p);
    OwnersAreHonoured(later, AdoptAll(configured, Resolve(primaries, configured).matched), h);
  }
}
