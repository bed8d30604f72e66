/** Which session requests share a binding: the key, when it keeps scopes apart, and what isolation follows. */
module Scopes {
  import opened Text
  import opened Candidates
  import opened PoolModel
  import opened Usernames
  import opened SessionModel
  import opened SessionRefinement

  /** The routing scope a session lives in, after the case folding the key applies. */
  datatype Scope = Scope(plugin: string, region: string, fast: bool, sessionID: string)

  function ScopeOf(info: SessionInfo): Scope {
    Scope(ToLower(info.plugin), ToUpper(info.region), info.fast, info.sessionID)
  }

  function FastWord(fast: bool): string {
    if fast then "true" else "false"
  }

  /** Everything of the key before the session. */
  function Head(s: Scope): string {
    "plugin=" + s.plugin + "|region=" + s.region + "|fast=" + FastWord(s.fast) + "|session="
  }

  function Key(s: Scope): string {
    Head(s) + s.sessionID
  }

  lemma KeyOfScope(info: SessionInfo)
    requires info.sessionID != ""
    ensures BindingKey(info) == Key(ScopeOf(info))
  {
    hide ToLower, ToUpper;
  }

  /** The two folded parts of a scope: no capital in the plugin, no small letter in the region. */
  ghost predicate Folded(s: Scope) {
    && (forall i :: 0 <= i < |s.plugin| ==> !('A' <= s.plugin[i] <= 'Z'))
    && (forall i :: 0 <= i < |s.region| ==> !('a' <= s.region[i] <= 'z'))
  }

  lemma ScopesAreFolded(info: SessionInfo)
    ensures Folded(ScopeOf(info))
  {
  }

  // ------------------------------------------------ reading a key back

  lemma BarAt(a: string, x: string)
    requires '|' !in a
    ensures IndexOf(a + ("|" + x), '|') == |a|
  {
    hide IndexOf;
    var s := a + ("|" + x);
    assert s[..|a|] == a;
    var i := IndexOf(s, '|');
    assert s[|a|] == '|';
    assert i <= |a|;
  }

  /** Reading up to the first separator that the left part cannot contain. */
  lemma PeelBar(a: string, x: string, b: string, y: string)
    requires '|' !in a && '|' !in b
    requires a + ("|" + x) == b + ("|" + y)
    ensures a == b && x == y
  {
    hide IndexOf;
    BarAt(a, x);
    BarAt(b, y);
    var s := a + ("|" + x);
    assert s[..|a|] == a && s[..|b|] == b;
    assert s[|a| + 1..] == x && s[|b| + 1..] == y;
  }

  /** The first small letter of s, or |s|. */
  function FirstSmall(s: string): (i: nat)
    ensures i <= |s|
    ensures i < |s| ==> 'a' <= s[i] <= 'z'
    ensures forall j :: 0 <= j < i ==> !('a' <= s[j] <= 'z')
  {
    if s == [] || 'a' <= s[0] <= 'z' then 0 else 1 + FirstSmall(s[1..])
  }

  lemma SmallAt(a: string, x: string)
    requires forall i :: 0 <= i < |a| ==> !('a' <= a[i] <= 'z')
    ensures FirstSmall(a + ("|fast=" + x)) == |a| + 1
  {
    hide FirstSmall;
    var s := a + ("|fast=" + x);
    assert s[..|a|] == a;
    var i := FirstSmall(s);
    assert s[|a|] == "|fast="[0] && s[|a| + 1] == "|fast="[1];
    assert i <= |a| + 1;
  }

  /** A region holds no small letter, so "|fast=" cannot begin inside it. */
  lemma PeelRegion(a: string, x: string, b: string, y: string)
    requires forall i :: 0 <= i < |a| ==> !('a' <= a[i] <= 'z')
    requires forall i :: 0 <= i < |b| ==> !('a' <= b[i] <= 'z')
    requires a + ("|fast=" + x) == b + ("|fast=" + y)
    ensures a == b && x == y
  {
    hide FirstSmall;
    SmallAt(a, x);
    SmallAt(b, y);
    var s := a + ("|fast=" + x);
    assert s[..|a|] == a && s[..|b|] == b;
    assert s[|a| + 6..] == x && s[|b| + 6..] == y;
  }

  lemma PeelFast(f: bool, x: string, g: bool, y: string)
    requires FastWord(f) + ("|session=" + x) == FastWord(g) + ("|session=" + y)
    ensures f == g && x == y
  {
    var s, t := FastWord(f) + ("|session=" + x), FastWord(g) + ("|session=" + y);
    assert s[0] == FastWord(f)[0] && t[0] == FastWord(g)[0];
    assert s[|FastWord(f)| + 9..] == x && t[|FastWord(g)| + 9..] == y;
  }

  function AfterRegion(s: Scope): string {
    FastWord(s.fast) + ("|session=" + s.sessionID)
  }

  function AfterPlugin(s: Scope): string {
    "region=" + (s.region + ("|fast=" + AfterRegion(s)))
  }

  lemma KeyShape(s: Scope)
    ensures Key(s) == "plugin=" + (s.plugin + ("|" + AfterPlugin(s)))
    ensures Key(s)[7..] == s.plugin + ("|" + AfterPlugin(s))
  {
    hide FastWord;
    assert Key(s) == "plugin=" + (s.plugin + ("|" + AfterPlugin(s)));
  }

  lemma SameRest(s: Scope, t: Scope)
    requires Folded(s) && Folded(t) && AfterPlugin(s) == AfterPlugin(t)
    ensures s.region == t.region && s.fast == t.fast && s.sessionID == t.sessionID
  {
    hide FastWord;
    assert AfterPlugin(s)[7..] == s.region + ("|fast=" + AfterRegion(s));
    assert AfterPlugin(t)[7..] == t.region + ("|fast=" + AfterRegion(t));
    PeelRegion(s.region, AfterRegion(s), t.region, AfterRegion(t));
    PeelFast(s.fast, s.sessionID, t.fast, t.sessionID);
  }

  /** Scopes whose plugin holds no '|' have different keys unless they are the same scope. */
  lemma KeysKeepScopesApart(a: SessionInfo, b: SessionInfo)
    requires a.sessionID != "" && b.sessionID != ""
    requires '|' !in a.plugin && '|' !in b.plugin
    ensures BindingKey(a) == BindingKey(b) <==> ScopeOf(a) == ScopeOf(b)
  {
    hide Folded, AfterPlugin, Key;
    KeyOfScope(a);
    KeyOfScope(b);
    var s, t := ScopeOf(a), ScopeOf(b);
    ScopesAreFolded(a);
    ScopesAreFolded(b);
    LowerKeepsBarFree(a.plugin);
    LowerKeepsBarFree(b.plugin);
    if BindingKey(a) == BindingKey(b) {
      KeyShape(s);
      KeyShape(t);
      PeelBar(s.plugin, AfterPlugin(s), t.plugin, AfterPlugin(t));
      SameRest(s, t);
    }
  }

  lemma LowerKeepsBarFree(s: string)
    requires '|' !in s
    ensures '|' !in ToLower(s)
  {
    forall i | 0 <= i < |s| ensures ToLower(s)[i] != '|' {
      assert s[i] in s;
    }
  }

  const BRIDGE := "|region=|fast=true|session="

  /** With a '|' in a plugin the key is not injective: these two requests share one binding. */
  lemma BarInPluginCollides()
    ensures var a := SessionInfo("aio", BRIDGE + "q", 0, "a", "", true);
            var b := SessionInfo("aio", "q", 0, "a" + BRIDGE, "", true);
            ScopeOf(a) != ScopeOf(b) && BindingKey(a) == BindingKey(b)
  {
    hide Key;
    var a := SessionInfo("aio", BRIDGE + "q", 0, "a", "", true);
    var b := SessionInfo("aio", "q", 0, "a" + BRIDGE, "", true);
    var s, t := Scope("a", "", true, BRIDGE + "q"), Scope("a" + BRIDGE, "", true, "q");
    KeyOfScope(a);
    KeyOfScope(b);
    LiteralsFolded();
    assert ScopeOf(a) == s && ScopeOf(b) == t;
    hide BindingKey;
    BridgeLiteral();
    assert Key(s) == Key(t) by {
      hide Head;
      KeyIs(s);
      KeyIs(t);
      Regroup("plugin=", "a", BRIDGE, "q");
    }
  }

  lemma KeyIs(s: Scope)
    ensures Key(s) == Head(s) + s.sessionID
  {
  }

  lemma Regroup(a: string, b: string, c: string, d: string)
    ensures a + b + c + (c + d) == a + (b + c) + c + d
  {
  }

  lemma LiteralsFolded()
    ensures ToLower("a") == "a" && ToUpper("") == "" && ToLower("a" + BRIDGE) == "a" + BRIDGE
  {
    assert forall i :: 0 <= i < |BRIDGE| ==> LowerChar(BRIDGE[i]) == BRIDGE[i];
  }

  lemma BridgeLiteral()
    ensures forall plugin: string, id: string {:trigger Head(Scope(plugin, "", true, id))} ::
              Head(Scope(plugin, "", true, id)) == "plugin=" + plugin + BRIDGE
  {
    forall plugin: string, id: string
      ensures Head(Scope(plugin, "", true, id)) == "plugin=" + plugin + BRIDGE
    {
      assert "|region=" + "" + "|fast=" + "true" + "|session=" == BRIDGE;
    }
  }

  /** What a key writes between plugin and session. */
  function Bridge(s: Scope): string {
    "|region=" + s.region + "|fast=" + FastWord(s.fast) + "|session="
  }

  /** What a longer plugin must spell out for its key to be mistaken for the key of s. */
  ghost predicate Extends(s: Scope, t: Scope, mid: string) {
    && t.plugin == s.plugin + Bridge(s) + mid
    && s.sessionID == mid + ("|" + AfterPlugin(t))
  }

  lemma ExtensionCollides(s: Scope, t: Scope, mid: string)
    requires Extends(s, t, mid)
    ensures Key(s) == Key(t)
  {
    hide AfterPlugin, Bridge, Head, Key;
    KeyByBridge(s);
    KeyShape(t);
    var rest := "|" + AfterPlugin(t);
    Concat4("plugin=", s.plugin, Bridge(s), mid, rest);
  }

  lemma Concat4(a: string, b: string, c: string, d: string, e: string)
    ensures a + (b + (c + (d + e))) == a + ((b + c + d) + e)
  {
  }

  lemma KeyByBridge(s: Scope)
    ensures Key(s) == "plugin=" + (s.plugin + (Bridge(s) + s.sessionID))
    ensures Key(s)[7..] == s.plugin + (Bridge(s) + s.sessionID)
  {
    hide AfterPlugin;
    KeyShape(s);
    BridgeShape(s);
  }

  /** Inside the bridge between plugin and session no "|r" occurs after its start. */
  lemma BridgeHasNoRegionMark(s: Scope)
    requires Folded(s)
    ensures forall i :: 0 < i < |Bridge(s)| && Bridge(s)[i] == '|' ==> i + 1 < |Bridge(s)| && Bridge(s)[i + 1] != 'r'
  {
    var b, r, f := Bridge(s), |s.region|, |FastWord(s.fast)|;
    assert |b| == 23 + r + f;
    assert b[8 + r + 1] == "|fast="[1] && b[14 + r + f + 1] == "|session="[1];
    forall i | 0 < i < |b| && b[i] == '|' ensures i + 1 < |b| && b[i + 1] != 'r' {
      if 8 <= i < 8 + r {
        assert b[i] == s.region[i - 8];
        assert b[i + 1] == if i + 1 < 8 + r then s.region[i - 7] else "|fast="[0];
      } else {
        BridgeBars(s, i);
      }
    }
  }

  /** Outside the region, a '|' of the bridge opens one of its three markers. */
  lemma BridgeBars(s: Scope, i: nat)
    requires i < |Bridge(s)| && Bridge(s)[i] == '|' && !(8 <= i < 8 + |s.region|)
    ensures i == 0 || i == 8 + |s.region| || i == 14 + |s.region| + |FastWord(s.fast)|
  {
    var b, r, f := Bridge(s), |s.region|, |FastWord(s.fast)|;
    if i < 8 {
      assert b[i] == "|region="[i];
    } else if i < 14 + r {
      assert b[i] == "|fast="[i - 8 - r];
    } else if i >= 14 + r + f {
      assert b[i] == "|session="[i - 14 - r - f];
    }
  }

  /** If two keys agree and the second plugin is the longer one, it spells out the whole head of the first key. */
  lemma LongerPluginExtends(s: Scope, t: Scope)
    requires Folded(s) && Folded(t) && Key(s) == Key(t) && |s.plugin| < |t.plugin|
    ensures exists mid :: Extends(s, t, mid)
  {
    hide AfterPlugin, Bridge, Folded, Key;
    KeyByBridge(s);
    KeyShape(t);
    var k := Key(s)[7..];
    var rest := "|" + AfterPlugin(t);
    BarThenRegion(t, k);
    BridgeCovered(s, k, |t.plugin|);
    CutThree(k, s.plugin, Bridge(s), s.sessionID, t.plugin, rest);
    var mid := t.plugin[|s.plugin| + |Bridge(s)|..];
    assert Extends(s, t, mid);
  }

  lemma BridgeCovered(s: Scope, k: string, q: nat)
    requires Folded(s) && k == s.plugin + (Bridge(s) + s.sessionID)
    requires |s.plugin| < q && q + 1 < |k| && k[q] == '|' && k[q + 1] == 'r'
    ensures q >= |s.plugin| + |Bridge(s)|
  {
    hide Bridge, Folded;
    var i := q - |s.plugin|;
    if i < |Bridge(s)| {
      assert k[q] == Bridge(s)[i];
      assert i + 1 < |Bridge(s)| ==> k[q + 1] == Bridge(s)[i + 1];
      BridgeHasNoRegionMark(s);
    }
  }

  lemma CutThree(k: string, a: string, b: string, c: string, d: string, e: string)
    requires k == a + (b + c) && k == d + e && |d| >= |a| + |b|
    ensures var mid := d[|a| + |b|..]; d == a + b + mid && c == mid + e
  {
    var n := |a| + |b|;
    assert k[..n] == a + b && k[n..] == c;
    assert d == k[..|d|];
    assert d[..n] == k[..n];
    assert k[n..] == d[n..] + e;
  }

  lemma BridgeShape(s: Scope)
    ensures "|" + AfterPlugin(s) == Bridge(s) + s.sessionID
  {
    hide FastWord;
    assert "|" + "region=" == "|region=";
    assert "|" + AfterPlugin(s) == ("|" + "region=") + (s.region + ("|fast=" + AfterRegion(s)));
  }

  lemma BarThenRegion(t: Scope, k: string)
    requires k == t.plugin + ("|" + AfterPlugin(t))
    ensures |k| > |t.plugin| + 1 && k[|t.plugin|] == '|' && k[|t.plugin| + 1] == 'r'
  {
    assert AfterPlugin(t)[0] == "region="[0];
  }

  /** Exactly when two different scopes share a key: one plugin spells out the head of the other's key, and the other's
      session spells out the rest. */
  lemma CollisionsAre(a: SessionInfo, b: SessionInfo)
    requires a.sessionID != "" && b.sessionID != ""
    ensures BindingKey(a) == BindingKey(b) && ScopeOf(a) != ScopeOf(b) <==>
            || (exists mid :: Extends(ScopeOf(a), ScopeOf(b), mid))
            || (exists mid :: Extends(ScopeOf(b), ScopeOf(a), mid))
  {
    hide Folded, Key, Extends, AfterPlugin, ToLower, ToUpper;
    KeyOfScope(a);
    KeyOfScope(b);
    ScopesAreFolded(a);
    ScopesAreFolded(b);
    var s, t := ScopeOf(a), ScopeOf(b);
    if mid :| Extends(s, t, mid) {
      ExtensionCollides(s, t, mid);
      ExtensionDiffers(s, t, mid);
    }
    if mid :| Extends(t, s, mid) {
      ExtensionCollides(t, s, mid);
      ExtensionDiffers(t, s, mid);
    }
    if Key(s) == Key(t) && s != t {
      if |s.plugin| < |t.plugin| {
        LongerPluginExtends(s, t);
      } else if |t.plugin| < |s.plugin| {
        LongerPluginExtends(t, s);
      } else {
        SameLengthSame(s, t);
      }
    }
  }

  lemma ExtensionDiffers(s: Scope, t: Scope, mid: string)
    requires Extends(s, t, mid)
    ensures s != t
  {
    assert |t.plugin| > |s.plugin|;
  }

  lemma SameLengthSame(s: Scope, t: Scope)
    requires Folded(s) && Folded(t) && Key(s) == Key(t) && |s.plugin| == |t.plugin|
    ensures s == t
  {
    hide AfterPlugin, Folded;
    KeyShape(s);
    KeyShape(t);
    var k := Key(s)[7..];
    assert k[..|s.plugin|] == s.plugin && k[..|t.plugin|] == t.plugin;
    assert k[|s.plugin| + 1..] == AfterPlugin(s) && k[|t.plugin| + 1..] == AfterPlugin(t);
    SameRest(s, t);
  }

  // ----------------------------------------------------------- isolation

  function KeyOf(e: Event): string {
    match e.op
    case Get(info) => BindingKey(info)
    case Bind(info, _) => BindingKey(info)
    case Drop(info) => BindingKey(info)
    case PickNext(info, _) => BindingKey(info)
    case CountAll => ""
  }

  ghost predicate SameAt(a: Bindings, b: Bindings, key: string) {
    (key in a <==> key in b) && (key in a ==> a[key] == b[key])
  }

  lemma StepElsewhere(cfg: Config, t: Table, e: Event, key: string, now: int)
    requires key != "" && KeyOf(e) != key && now >= e.at
    ensures SameAt(Live(StepTable(cfg, t, e).0.bindings, now), Live(t.bindings, now), key)
  {
    hide BindingKey, NewBinding, PickMatching, Usable, Touch;
  }

  lemma LastKeyed(events: seq<Event>, from: int)
    requires InOrder(from, events)
    ensures events != [] ==> from <= events[|events| - 1].at
    decreases |events|
  {
    if |events| > 1 {
      LastKeyed(events[1..], events[0].at);
    }
  }

  /** No run of operations on other keys changes what a key is bound to, as seen at any later time. */
  lemma {:induction false} OtherKeysUntouched(cfg: Config, t: Table, events: seq<Event>, key: string, from: int,
                                              now: int)
    requires key != "" && InOrder(from, events)
    requires forall i :: 0 <= i < |events| ==> KeyOf(events[i]) != key
    requires now >= from && (events != [] ==> now >= events[|events| - 1].at)
    ensures SameAt(Live(RunTable(cfg, t, events).0.bindings, now), Live(t.bindings, now), key)
    decreases |events|
  {
    hide BindingKey, StepTable, Live, KeyOf;
    if events != [] {
      var rest := events[1..];
      LastKeyed(rest, events[0].at);
      assert rest != [] ==> rest[|rest| - 1] == events[|events| - 1];
      StepElsewhere(cfg, t, events[0], key, now);
      OtherKeysUntouched(cfg, StepTable(cfg, t, events[0]).0, rest, key, events[0].at, now);
    }
  }

  /** Scope isolation: for plugins without '|', operations on other scopes never change a scope's binding. */
  lemma OtherScopesUntouched(cfg: Config, t: Table, events: seq<Event>, info: SessionInfo, from: int, now: int)
    requires info.sessionID != "" && '|' !in info.plugin
    requires InOrder(from, events)
    requires now >= from && (events != [] ==> now >= events[|events| - 1].at)
    requires forall i :: 0 <= i < |events| && !events[i].op.CountAll? ==>
               var other := events[i].op.info; '|' !in other.plugin && ScopeOf(other) != ScopeOf(info)
    ensures SameAt(Live(RunTable(cfg, t, events).0.bindings, now), Live(t.bindings, now), BindingKey(info))
  {
    hide BindingKey, ScopeOf, RunTable, Live, InOrder;
    var key := BindingKey(info);
    assert key != "" by { KeyNotEmpty(info); }
    forall i | 0 <= i < |events| ensures KeyOf(events[i]) != key {
      if !events[i].op.CountAll? {
        var other := events[i].op.info;
        if other.sessionID == "" {
          KeyNotEmpty(other);
        } else {
          KeysKeepScopesApart(other, info);
        }
      }
    }
    OtherKeysUntouched(cfg, t, events, key, from, now);
  }

  lemma KeyNotEmpty(info: SessionInfo)
    ensures BindingKey(info) == "" <==> info.sessionID == ""
  {
    hide ToLower, ToUpper;
  }

  // ------------------------------------------------------------- affinity

  /** A run in which the session with this key is only used, never taken away. Each use finds the candidate in the pool,
      available and on the route, less than ttl after the use or bind before it; a bind to the same candidate starts a
      new lifetime. */
  ghost predicate UsedInTime(cfg: Config, events: seq<Event>, key: string, fp: Fingerprint, ttl: int, last: int)
    decreases |events|
  {
    if events == [] then true
    else
      var e, rest := events[0], events[1..];
      if KeyOf(e) != key then UsedInTime(cfg, rest, key, fp, ttl, last)
      else
        match e.op
        case Get(info) =>
          e.at < last + ttl && CanServe(e.pool, info, fp) && UsedInTime(cfg, rest, key, fp, ttl, e.at)
        case PickNext(info, _) =>
          e.at < last + ttl && CanServe(e.pool, info, fp) && UsedInTime(cfg, rest, key, fp, ttl, e.at)
        case Bind(info, other) =>
          other == fp && UsedInTime(cfg, rest, key, fp, Clamp(info.ttl, cfg.defaultTTL, cfg.maxTTL), e.at)
        case _ => false
  }

  /** The session is bound to the candidate, for ttl from the last use or bind. */
  ghost predicate BoundSince(t: Table, key: string, fp: Fingerprint, ttl: int, last: int) {
    key in t.bindings && t.bindings[key] == Binding(fp, last + ttl, ttl)
  }

  /** Or it was until it expired: a sweep may drop it then, and only then. */
  ghost predicate Holds(t: Table, key: string, fp: Fingerprint, ttl: int, last: int, now: int) {
    BoundSince(t, key, fp, ttl, last) || (key !in t.bindings && last + ttl <= now)
  }

  lemma StepHolds(cfg: Config, t: Table, e: Event, key: string, fp: Fingerprint, ttl: int, last: int, from: int)
    requires key != "" && KeyOf(e) != key && Holds(t, key, fp, ttl, last, from) && from <= e.at
    ensures Holds(StepTable(cfg, t, e).0, key, fp, ttl, last, e.at)
  {
    hide BindingKey, NewBinding, PickMatching, Usable, Touch;
  }

  lemma StepUses(cfg: Config, t: Table, e: Event, key: string, fp: Fingerprint, ttl: int, last: int)
    requires key != "" && KeyOf(e) == key && BoundSince(t, key, fp, ttl, last) && e.at < last + ttl
    requires (e.op.Get? || e.op.PickNext?) && CanServe(e.pool, e.op.info, fp)
    ensures BoundSince(StepTable(cfg, t, e).0, key, fp, ttl, e.at)
    ensures StepTable(cfg, t, e).1 == Chosen(Some(e.pool.items[fp]), e.pool)
  {
    hide NewBinding, PickMatching;
    KeyNotEmpty(e.op.info);
    UsableIs(e.pool, e.op.info, fp);
    hide BindingKey, Usable, CanServe;
  }

  lemma StepBinds(cfg: Config, t: Table, e: Event, key: string)
    requires key != "" && KeyOf(e) == key && e.op.Bind?
    ensures BoundSince(StepTable(cfg, t, e).0, key, e.op.fp, Clamp(e.op.info.ttl, cfg.defaultTTL, cfg.maxTTL), e.at)
  {
    hide Clamp;
    KeyNotEmpty(e.op.info);
  }

  ghost predicate Served(a: Answer, e: Event, fp: Fingerprint) {
    a.Chosen? && fp in e.pool.items && a.candidate == Some(e.pool.items[fp])
  }

  /** Session affinity over whole runs: while a binding is used in time and not taken away, every lookup and every pick
      on its key returns the bound candidate, whatever happens on other keys and whenever sweeps fall. */
  lemma {:induction false} AffinityLasts(cfg: Config, t: Table, events: seq<Event>, key: string, fp: Fingerprint,
                                         ttl: int, last: int, from: int, i: nat)
    requires key != "" && InOrder(from, events) && UsedInTime(cfg, events, key, fp, ttl, last)
    requires Holds(t, key, fp, ttl, last, from)
    requires i < |events| && KeyOf(events[i]) == key && (events[i].op.Get? || events[i].op.PickNext?)
    ensures Served(RunTable(cfg, t, events).1[i], events[i], fp)
    decreases |events|
  {
    hide BindingKey, StepTable, KeyOf, Clamp;
    var e, rest := events[0], events[1..];
    var t' := StepTable(cfg, t, e).0;
    assert i > 0 ==> RunTable(cfg, t, events).1[i] == RunTable(cfg, t', rest).1[i - 1] && rest[i - 1] == events[i];
    if KeyOf(e) != key {
      StepHolds(cfg, t, e, key, fp, ttl, last, from);
      AffinityLasts(cfg, t', rest, key, fp, ttl, last, e.at, i - 1);
    } else if e.op.Bind? {
      StepBinds(cfg, t, e, key);
      AffinityLasts(cfg, t', rest, key, fp, Clamp(e.op.info.ttl, cfg.defaultTTL, cfg.maxTTL), e.at, e.at, i - 1);
    } else {
      StepUses(cfg, t, e, key, fp, ttl, last);
      if i > 0 {
        AffinityLasts(cfg, t', rest, key, fp, ttl, e.at, e.at, i - 1);
      }
    }
  }

  /** A binding lasts ttl from its last use or bind, to the moment: with nothing done to the session in between, a later
      lookup is served exactly when it comes less than ttl after it. */
  lemma {:induction false} ServedIffInTime(cfg: Config, t: Table, events: seq<Event>, e: Event, key: string,
                                           fp: Fingerprint, ttl: int, last: int, from: int)
    requires key != "" && Holds(t, key, fp, ttl, last, from) && InOrder(from, events + [e])
    requires forall i :: 0 <= i < |events| ==> KeyOf(events[i]) != key
    requires e.op.Get? && KeyOf(e) == key && CanServe(e.pool, e.op.info, fp)
    ensures RunTable(cfg, t, events + [e]).1[|events|] ==
            Chosen(if e.at < last + ttl then Some(e.pool.items[fp]) else None, e.pool)
    decreases |events|
  {
    hide BindingKey, StepTable, KeyOf, CanServe;
    if events == [] {
      assert events + [e] == [e];
      if e.at < last + ttl {
        StepUses(cfg, t, e, key, fp, ttl, last);
      } else {
        StepLapsed(cfg, t, e, key, fp, ttl, last, from);
      }
    } else {
      var rest := events[1..];
      assert (events + [e])[1..] == rest + [e] && (events + [e])[0] == events[0];
      StepHolds(cfg, t, events[0], key, fp, ttl, last, from);
      ServedIffInTime(cfg, StepTable(cfg, t, events[0]).0, rest, e, key, fp, ttl, last, events[0].at);
    }
  }

  lemma StepLapsed(cfg: Config, t: Table, e: Event, key: string, fp: Fingerprint, ttl: int, last: int, from: int)
    requires key != "" && KeyOf(e) == key && e.op.Get? && Holds(t, key, fp, ttl, last, from) && last + ttl <= e.at
    ensures StepTable(cfg, t, e).1 == Chosen(None, e.pool)
  {
    KeyNotEmpty(e.op.info);
    hide BindingKey, Usable;
  }

  /** From a bind on: the session is served by the candidate for exactly its lifetime. */
  lemma BindLasts(cfg: Config, t: Table, bind: Event, events: seq<Event>, e: Event)
    requires bind.op.Bind? && bind.op.info.sessionID != "" && InOrder(bind.at, events + [e])
    requires forall i :: 0 <= i < |events| ==> KeyOf(events[i]) != KeyOf(bind)
    requires e.op.Get? && KeyOf(e) == KeyOf(bind) && CanServe(e.pool, e.op.info, bind.op.fp)
    ensures RunTable(cfg, t, [bind] + (events + [e])).1[|events| + 1] ==
            Chosen(if e.at < bind.at + Clamp(bind.op.info.ttl, cfg.defaultTTL, cfg.maxTTL)
                   then Some(e.pool.items[bind.op.fp]) else None, e.pool)
  {
    hide BindingKey, StepTable, CanServe, Clamp;
    var key, ttl := KeyOf(bind), Clamp(bind.op.info.ttl, cfg.defaultTTL, cfg.maxTTL);
    KeyNotEmpty(bind.op.info);
    StepBinds(cfg, t, bind, key);
    assert ([bind] + (events + [e]))[1..] == events + [e];
    ServedIffInTime(cfg, StepTable(cfg, t, bind).0, events, e, key, bind.op.fp, ttl, bind.at, bind.at);
  }

  /** The binding does not serve: there is none, it has expired, or its candidate cannot serve. */
  ghost predicate NotServed(t: Table, e: Event, key: string)
    requires !e.op.CountAll?
  {
    key in t.bindings && e.at < t.bindings[key].expiresAt ==>
      !CanServe(e.pool, e.op.info, t.bindings[key].fingerprint)
  }

  lemma StepPicks(cfg: Config, t: Table, e: Event, key: string, c: Candidate)
    requires key != "" && KeyOf(e) == key && e.op.PickNext? && NotServed(t, e, key)
    requires PickMatching(e.pool, RouteOf(e.op.info), e.op.draw).1 == Some(c)
    ensures StepTable(cfg, t, e).1 == Chosen(Some(c), PickMatching(e.pool, RouteOf(e.op.info), e.op.draw).0)
    ensures BoundSince(StepTable(cfg, t, e).0, key, c.fingerprint, Clamp(e.op.info.ttl, cfg.defaultTTL, cfg.maxTTL),
                       e.at)
  {
    hide PickMatching, Clamp, BindingKey, Live;
    KeyNotEmpty(e.op.info);
    UsableIs(e.pool, e.op.info, if key in t.bindings then t.bindings[key].fingerprint else c.fingerprint);
    SweptSame(t, e.at, key);
    hide Usable, CanServe, SweepTable;
  }

  lemma SweptSame(t: Table, now: Instant, key: string)
    ensures var m := SweepTable(t, now, SWEEP_INTERVAL).bindings;
            key in m ==> key in t.bindings && m[key] == t.bindings[key]
  {
  }

  /** From a pick on that no binding served: the session is bound to what the pool's policy chose, for exactly its
      lifetime. */
  lemma PickLasts(cfg: Config, t: Table, pick: Event, c: Candidate, events: seq<Event>, e: Event)
    requires pick.op.PickNext? && pick.op.info.sessionID != "" && NotServed(t, pick, KeyOf(pick))
    requires PickMatching(pick.pool, RouteOf(pick.op.info), pick.op.draw).1 == Some(c)
    requires InOrder(pick.at, events + [e]) && forall i :: 0 <= i < |events| ==> KeyOf(events[i]) != KeyOf(pick)
    requires e.op.Get? && KeyOf(e) == KeyOf(pick) && CanServe(e.pool, e.op.info, c.fingerprint)
    ensures var answers := RunTable(cfg, t, [pick] + (events + [e])).1;
            && answers[0].Chosen? && answers[0].candidate == Some(c)
            && answers[|events| + 1] ==
               Chosen(if e.at < pick.at + Clamp(pick.op.info.ttl, cfg.defaultTTL, cfg.maxTTL)
                      then Some(e.pool.items[c.fingerprint]) else None, e.pool)
  {
    hide BindingKey, StepTable, CanServe, Clamp, PickMatching, NotServed;
    var key, ttl := KeyOf(pick), Clamp(pick.op.info.ttl, cfg.defaultTTL, cfg.maxTTL);
    KeyNotEmpty(pick.op.info);
    StepPicks(cfg, t, pick, key, c);
    assert ([pick] + (events + [e]))[1..] == events + [e];
    ServedIffInTime(cfg, StepTable(cfg, t, pick).0, events, e, key, c.fingerprint, ttl, pick.at, pick.at);
  }

  ghost predicate NoneLive(t: Table, key: string, now: int) {
    key in t.bindings ==> t.bindings[key].expiresAt <= now
  }

  lemma StepDrops(cfg: Config, t: Table, e: Event, key: string)
    requires key != "" && KeyOf(e) == key && (e.op.Get? || e.op.PickNext?) && NotServed(t, e, key)
    requires e.op.PickNext? ==> PickMatching(e.pool, RouteOf(e.op.info), e.op.draw).1 == None
    ensures StepTable(cfg, t, e).1.Chosen? && StepTable(cfg, t, e).1.candidate == None
    ensures NoneLive(StepTable(cfg, t, e).0, key, e.at)
  {
    hide PickMatching, BindingKey, Live;
    KeyNotEmpty(e.op.info);
    if key in t.bindings {
      UsableIs(e.pool, e.op.info, t.bindings[key].fingerprint);
    }
    SweptSame(t, e.at, key);
    hide Usable, CanServe, SweepTable;
  }

  lemma NoneLiveElsewhere(cfg: Config, t: Table, e: Event, key: string, from: int)
    requires key != "" && KeyOf(e) != key && NoneLive(t, key, from) && from <= e.at
    ensures NoneLive(StepTable(cfg, t, e).0, key, e.at)
  {
    hide BindingKey, NewBinding, PickMatching, Usable, Touch;
  }

  lemma {:induction false} StaysUnserved(cfg: Config, t: Table, events: seq<Event>, e: Event, key: string, from: int)
    requires key != "" && NoneLive(t, key, from) && InOrder(from, events + [e])
    requires forall i :: 0 <= i < |events| ==> KeyOf(events[i]) != key
    requires e.op.Get? && KeyOf(e) == key
    ensures RunTable(cfg, t, events + [e]).1[|events|] == Chosen(None, e.pool)
    decreases |events|
  {
    hide BindingKey, StepTable, KeyOf, CanServe, PickMatching;
    if events == [] {
      assert events + [e] == [e];
      StepDrops(cfg, t, e, key);
      StepKeepsPool(cfg, t, e);
    } else {
      var rest := events[1..];
      assert (events + [e])[1..] == rest + [e] && (events + [e])[0] == events[0];
      NoneLiveElsewhere(cfg, t, events[0], key, from);
      StaysUnserved(cfg, StepTable(cfg, t, events[0]).0, rest, e, key, events[0].at);
    }
  }

  lemma StepKeepsPool(cfg: Config, t: Table, e: Event)
    requires e.op.Get?
    ensures StepTable(cfg, t, e).1.Chosen? && StepTable(cfg, t, e).1.pool == e.pool
  {
  }

  /** A binding that failed to serve once is gone for good: though its candidate may recover, no later lookup returns it
      until the session is bound again. */
  lemma NotRevived(cfg: Config, t: Table, miss: Event, events: seq<Event>, e: Event)
    requires (miss.op.Get? || miss.op.PickNext?) && miss.op.info.sessionID != "" && NotServed(t, miss, KeyOf(miss))
    requires miss.op.PickNext? ==> PickMatching(miss.pool, RouteOf(miss.op.info), miss.op.draw).1 == None
    requires InOrder(miss.at, events + [e]) && forall i :: 0 <= i < |events| ==> KeyOf(events[i]) != KeyOf(miss)
    requires e.op.Get? && KeyOf(e) == KeyOf(miss)
    ensures RunTable(cfg, t, [miss] + (events + [e])).1[|events| + 1] == Chosen(None, e.pool)
  {
    hide BindingKey, StepTable, CanServe, PickMatching, NotServed;
    KeyNotEmpty(miss.op.info);
    StepDrops(cfg, t, miss, KeyOf(miss));
    assert ([miss] + (events + [e]))[1..] == events + [e];
    StaysUnserved(cfg, StepTable(cfg, t, miss).0, events, e, KeyOf(miss), miss.at);
  }

  /** From a use on: a lookup or pick in time starts the lifetime afresh. */
  lemma UseExtends(cfg: Config, t: Table, use: Event, fp: Fingerprint, ttl: int, last: int, events: seq<Event>,
                   e: Event)
    requires use.op.Get? || use.op.PickNext?
    requires use.op.info.sessionID != "" && BoundSince(t, KeyOf(use), fp, ttl, last)
    requires use.at < last + ttl && CanServe(use.pool, use.op.info, fp) && InOrder(use.at, events + [e])
    requires forall i :: 0 <= i < |events| ==> KeyOf(events[i]) != KeyOf(use)
    requires e.op.Get? && KeyOf(e) == KeyOf(use) && CanServe(e.pool, e.op.info, fp)
    ensures var answers := RunTable(cfg, t, [use] + (events + [e])).1;
            && answers[0] == Chosen(Some(use.pool.items[fp]), use.pool)
            && answers[|events| + 1] == Chosen(if e.at < use.at + ttl then Some(e.pool.items[fp]) else None, e.pool)
  {
    hide BindingKey, StepTable, CanServe;
    var key := KeyOf(use);
    KeyNotEmpty(use.op.info);
    StepUses(cfg, t, use, key, fp, ttl, last);
    assert ([use] + (events + [e]))[1..] == events + [e];
    ServedIffInTime(cfg, StepTable(cfg, t, use).0, events, e, key, fp, ttl, use.at, use.at);
  }
}
