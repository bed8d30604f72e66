/** Proxy user names that carry routing and session information (internal/core/session.go). */
module Usernames {
  import opened Collections
  import opened Text

  datatype SessionInfo = SessionInfo(
    credential: string,
    sessionID: string,
    ttl: int,
    plugin: string,
    region: string,
    fast: bool)

  /** time.ParseDuration: which strings are durations, and how long they are. */
  type DurationParser = string -> Option<int>

  /** No duration is empty, padded with spaces, or spelled with a '~', and "fast" is not one. */
  ghost predicate ParsesDurations(dur: DurationParser) {
    forall d :: dur(d).Some? ==> d != "" && d != "fast" && '~' !in d && Trimmed(d)
  }

  const PLAIN_FAST := "-fast"

  // -------------------------------------------------- key=value segments

  const KEYS: set<string> := {"fast", "plugin", "region", "session", "ttl"}

  datatype Pair = Pair(key: string, val: string)

  /** One segment of the structured form, if the loop body accepts it on its own. */
  function ParseSegment(part: string): Option<Pair> {
    var eq := IndexOf(part, '=');
    if eq == |part| then None
    else
      var key := ToLower(TrimSpace(part[..eq]));
      var val := TrimSpace(part[eq + 1..]);
      if key !in KEYS || val == "" || (key == "fast" && !EqualFold(val, "true")) then None
      else Some(Pair(key, val))
  }

  /** The segments as a table, or nothing when one is malformed or a key repeats. */
  function Collect(parts: seq<string>): Option<map<string, string>> {
    if parts == [] then Some(map[])
    else
      match (Collect(parts[..|parts| - 1]), ParseSegment(parts[|parts| - 1]))
      case (Some(table), Some(Pair(key, val))) => if key in table then None else Some(table[key := val])
      case _ => None
  }

  function Lookup(table: map<string, string>, key: string): string {
    if key in table then table[key] else ""
  }

  function Clamp(ttl: int, defaultTTL: int, maxTTL: int): int {
    var t := if ttl <= 0 then defaultTTL else ttl;
    if maxTTL > 0 && t > maxTTL then maxTTL else t
  }

  /** The lifetime a session gets: what it asked for or the default, but no more than the maximum if there is one. */
  lemma ClampIs(ttl: int, defaultTTL: int, maxTTL: int)
    ensures 0 < ttl && (maxTTL <= 0 || ttl <= maxTTL) ==> Clamp(ttl, defaultTTL, maxTTL) == ttl
    ensures ttl <= 0 && (maxTTL <= 0 || defaultTTL <= maxTTL) ==> Clamp(ttl, defaultTTL, maxTTL) == defaultTTL
    ensures 0 < maxTTL < ttl || (ttl <= 0 && 0 < maxTTL < defaultTTL) ==> Clamp(ttl, defaultTTL, maxTTL) == maxTTL
  {
  }

  /** The fields the segments set directly. */
  function Fields(table: map<string, string>, credential: string): SessionInfo {
    SessionInfo(credential, Lookup(table, "session"), 0, ToLower(Lookup(table, "plugin")),
                ToUpper(Lookup(table, "region")), "fast" in table)
  }

  /** The session info a table of segments stands for. */
  function InfoOf(table: map<string, string>, credential: string, defaultTTL: int, maxTTL: int,
                  dur: DurationParser): Option<SessionInfo> {
    var info := Fields(table, credential);
    if "ttl" in table then
      if info.sessionID == "" then None
      else
        match dur(table["ttl"])
        case None => None
        case Some(ttl) => Some(info.(ttl := Clamp(ttl, defaultTTL, maxTTL)))
    else if info.sessionID == "" then Some(info)
    else Some(info.(ttl := Clamp(0, defaultTTL, maxTTL)))
  }

  function ParseStructured(username: string, credential: string, defaultTTL: int, maxTTL: int,
                           dur: DurationParser): Option<SessionInfo> {
    var parts := Split(username, '~');
    if parts[0] != credential then None
    else
      match Collect(parts[1..])
      case None => None
      case Some(table) => InfoOf(table, credential, defaultTTL, maxTTL, dur)
  }

  /** Which segments are accepted, and as what: the key is trimmed and lower-cased, the value only trimmed. */
  lemma SegmentIs(k: string, v: string)
    requires '=' !in k
    ensures ParseSegment(k) == None
    ensures var key, val := ToLower(TrimSpace(k)), TrimSpace(v);
            ParseSegment(k + "=" + v) ==
              if val != "" && (|| key == "plugin" || key == "region" || key == "session" || key == "ttl"
                               || (key == "fast" && ToLower(val) == "true"))
              then Some(Pair(key, val)) else None
  {
    hide ToLower, TrimSpace;
    var part := k + "=" + v;
    assert part[|k|] == '=';
    assert forall j :: 0 <= j < |k| ==> part[j] == k[j];
    assert IndexOf(part, '=') == |k|;
    assert part[..|k|] == k && part[|k| + 1..] == v;
    assert IndexOf(k, '=') == |k|;
    KeysAre(ToLower(TrimSpace(k)));
    KeyWord("true");
  }

  lemma KeysAre(key: string)
    ensures key in KEYS <==> key == "plugin" || key == "region" || key == "session" || key == "ttl" || key == "fast"
  {
  }

  /** What an accepted table of segments means: a time to live needs a session and must parse; a session without one
      gets the default; the plugin is lower-cased and the region upper-cased. */
  lemma StructuredIs(username: string, credential: string, defaultTTL: int, maxTTL: int, dur: DurationParser,
                     table: map<string, string>)
    requires Split(username, '~')[0] == credential && Collect(Split(username, '~')[1..]) == Some(table)
    ensures var r := ParseStructured(username, credential, defaultTTL, maxTTL, dur);
            && (r.None? <==> "ttl" in table && ("session" !in table || dur(table["ttl"]).None?))
            && (r.Some? ==>
                  && r.value.credential == credential
                  && r.value.sessionID == (if "session" in table then table["session"] else "")
                  && r.value.plugin == (if "plugin" in table then ToLower(table["plugin"]) else "")
                  && r.value.region == (if "region" in table then ToUpper(table["region"]) else "")
                  && (r.value.fast <==> "fast" in table)
                  && r.value.ttl == (if "session" !in table then 0
                                     else if "ttl" in table then Clamp(dur(table["ttl"]).value, defaultTTL, maxTTL)
                                     else Clamp(0, defaultTTL, maxTTL)))
  {
    hide Split, Collect, Clamp;
    ValuesNotEmpty(Split(username, '~')[1..], table);
    assert ToLower("") == "" && ToUpper("") == "";
  }

  lemma {:induction false} ValuesNotEmpty(parts: seq<string>, table: map<string, string>)
    requires Collect(parts) == Some(table)
    ensures forall k :: k in table ==> table[k] != ""
  {
    hide ToLower, TrimSpace;
    if parts != [] {
      var n := |parts| - 1;
      ValuesNotEmpty(parts[..n], Collect(parts[..n]).value);
    }
  }

  /** Anything else is refused: another credential, or segments that are not all well formed with different keys. */
  lemma StructuredRejects(username: string, credential: string, defaultTTL: int, maxTTL: int, dur: DurationParser)
    ensures var parts := Split(username, '~');
            ParseStructured(username, credential, defaultTTL, maxTTL, dur).Some? ==>
              parts[0] == credential && Wellformed(parts[1..])
  {
    hide Split, Collect, InfoOf, Wellformed;
    CollectIs(Split(username, '~')[1..]);
  }

  /** The program's loop over the segments, with its seen set and its fields filled one by one. */
  method ParseStructuredUsername(username: string, credential: string, defaultTTL: int, maxTTL: int,
                                 dur: DurationParser)
    returns (r: Option<SessionInfo>)
    ensures r == ParseStructured(username, credential, defaultTTL, maxTTL, dur)
  {
    hide Collect, Fields, Lookup, Split, ToLower, ToUpper, ParseSegment;
    var parts := Split(username, '~');
    if |parts| == 0 || parts[0] != credential {
      return None;
    }
    var rest := parts[1..];
    var info := SessionInfo(credential, "", 0, "", "", false);
    var ttlRaw := "";
    var seen: set<string> := {};
    ghost var table: map<string, string> := map[];
    NoSegments(credential);
    for i := 0 to |rest|
      invariant Collect(rest[..i]) == Some(table)
      invariant seen == table.Keys
      invariant "ttl" in table ==> table["ttl"] != ""
      invariant info == Fields(table, credential)
      invariant ttlRaw == Lookup(table, "ttl")
    {
      Rejects(rest, i, table);
      var pair := SplitSegment(rest[i]);
      if pair.None? || pair.value.key in seen {
        return None;
      }
      var key, val := pair.value.key, pair.value.val;
      seen := seen + {key};
      FieldsStep(table, credential, key, val);
      if key == "fast" {
        if !EqualFold(val, "true") {
          return None;
        }
        info := info.(fast := true);
      } else if key == "plugin" {
        info := info.(plugin := ToLower(val));
      } else if key == "region" {
        info := info.(region := ToUpper(val));
      } else if key == "session" {
        info := info.(sessionID := val);
      } else if key == "ttl" {
        ttlRaw := val;
      } else {
        return None;
      }
      table := table[key := val];
    }
    assert rest[..|rest|] == rest;
    r := Finish(table, info, ttlRaw, credential, defaultTTL, maxTTL, dur);
  }

  /** Cuts a segment at its first '=', rejecting an empty key or value. */
  method SplitSegment(part: string) returns (r: Option<Pair>)
    ensures match ParseSegment(part)
            case Some(p) =>
              r == Some(p) && p.key in KEYS && p.val != "" && (p.key == "fast" ==> EqualFold(p.val, "true"))
            case None => r.Some? ==> r.value.key !in KEYS || (r.value.key == "fast" && !EqualFold(r.value.val, "true"))
  {
    hide ToLower, TrimSpace;
    if part == "" {
      return None;
    }
    var eq := IndexOf(part, '=');
    if eq == |part| {
      return None;
    }
    var key, val := ToLower(TrimSpace(part[..eq])), TrimSpace(part[eq + 1..]);
    KeysDiffer();
    if key == "" || val == "" {
      return None;
    }
    r := Some(Pair(key, val));
  }

  /** The checks after the loop: a time to live needs a session, and is bounded. */
  method Finish(ghost table: map<string, string>, fields: SessionInfo, ttlRaw: string, credential: string,
                defaultTTL: int, maxTTL: int, dur: DurationParser)
    returns (r: Option<SessionInfo>)
    requires fields == Fields(table, credential) && ttlRaw == Lookup(table, "ttl")
    requires "ttl" in table ==> table["ttl"] != ""
    ensures r == InfoOf(table, credential, defaultTTL, maxTTL, dur)
  {
    var info := fields;
    if ttlRaw != "" {
      if info.sessionID == "" {
        return None;
      }
      var ttl := dur(ttlRaw);
      if ttl.None? {
        return None;
      }
      info := info.(ttl := ttl.value);
    }
    if info.ttl <= 0 && info.sessionID != "" {
      info := info.(ttl := defaultTTL);
    }
    if info.ttl > 0 && maxTTL > 0 && info.ttl > maxTTL {
      info := info.(ttl := maxTTL);
    }
    r := Some(info);
  }

  lemma NoSegments(credential: string)
    ensures Collect([]) == Some(map[])
    ensures Fields(map[], credential) == SessionInfo(credential, "", 0, "", "", false) && Lookup(map[], "ttl") == ""
  {
    assert ToLower("") == "" && ToUpper("") == "";
  }

  /** What one accepted segment changes. */
  lemma FieldsStep(table: map<string, string>, credential: string, key: string, val: string)
    ensures var was, now := Fields(table, credential), Fields(table[key := val], credential);
            && (key == "fast" ==> now == was.(fast := true))
            && (key == "plugin" ==> now == was.(plugin := ToLower(val)))
            && (key == "region" ==> now == was.(region := ToUpper(val)))
            && (key == "session" ==> now == was.(sessionID := val))
            && (key == "ttl" ==> now == was)
    ensures key in KEYS && key != "ttl" ==> Lookup(table[key := val], "ttl") == Lookup(table, "ttl")
    ensures Lookup(table[key := val], key) == val
  {
    hide ToLower, ToUpper;
    KeysDiffer();
  }

  /** A bad or repeated segment rejects the whole list; a good new one extends the table. */
  lemma Rejects(parts: seq<string>, i: nat, table: map<string, string>)
    requires i < |parts| && Collect(parts[..i]) == Some(table)
    ensures match ParseSegment(parts[i])
            case Some(p) => if p.key in table then Collect(parts) == None
              else Collect(parts[..i + 1]) == Some(table[p.key := p.val])
            case None => Collect(parts) == None
  {
    hide ParseSegment;
    assert parts[..i + 1][..i] == parts[..i];
    if Collect(parts[..i + 1]) == None { PrefixFails(parts, i + 1); }
  }

  lemma KeysDiffer()
    ensures "" !in KEYS
    ensures "fast"[0] == 'f' && "plugin"[0] == 'p' && "region"[0] == 'r' && "session"[0] == 's' && "ttl"[0] == 't'
  {
    assert forall k :: k in KEYS ==> |k| >= 3;
  }

  /** Once a prefix of the segments is rejected, the whole list is. */
  lemma {:induction false} PrefixFails(parts: seq<string>, i: nat)
    requires i <= |parts| && Collect(parts[..i]) == None
    ensures Collect(parts) == None
    decreases |parts|
  {
    if i == |parts| {
      assert parts[..i] == parts;
    } else {
      assert parts[..|parts| - 1][..i] == parts[..i];
      PrefixFails(parts[..|parts| - 1], i);
    }
  }

  // --------------------------------------------------- segment order is free

  ghost predicate Wellformed(parts: seq<string>) {
    && (forall i :: 0 <= i < |parts| ==> ParseSegment(parts[i]).Some?)
    && (forall i, j :: 0 <= i < j < |parts| ==> ParseSegment(parts[i]).value.key != ParseSegment(parts[j]).value.key)
  }

  ghost predicate Tabulates(parts: seq<string>, table: map<string, string>) {
    && (forall i :: 0 <= i < |parts| && ParseSegment(parts[i]).Some? ==>
          var p := ParseSegment(parts[i]).value; p.key in table && table[p.key] == p.val)
    && (forall k :: k in table ==>
          exists i :: 0 <= i < |parts| && ParseSegment(parts[i]).Some? && ParseSegment(parts[i]).value.key == k)
  }

  lemma WellformedSnoc(parts: seq<string>)
    requires parts != []
    ensures var n := |parts| - 1;
            Wellformed(parts) <==>
              && Wellformed(parts[..n]) && ParseSegment(parts[n]).Some?
              && forall i :: 0 <= i < n && ParseSegment(parts[i]).Some? ==>
                   ParseSegment(parts[i]).value.key != ParseSegment(parts[n]).value.key
  {
    hide ParseSegment;
    var n := |parts| - 1;
    assert forall i :: 0 <= i < n ==> parts[..n][i] == parts[i];
    if Wellformed(parts) {
      assert Wellformed(parts[..n]);
    }
  }

  lemma TabulatesSnoc(parts: seq<string>, table: map<string, string>)
    requires parts != []
    requires var n := |parts| - 1;
             Tabulates(parts[..n], table) && ParseSegment(parts[n]).Some? && ParseSegment(parts[n]).value.key !in table
    ensures var p := ParseSegment(parts[|parts| - 1]).value; Tabulates(parts, table[p.key := p.val])
  {
    hide ParseSegment;
    var n := |parts| - 1;
    var p := ParseSegment(parts[n]).value;
    var updated := table[p.key := p.val];
    forall k | k in updated
      ensures exists i :: 0 <= i < |parts| && ParseSegment(parts[i]).Some? && ParseSegment(parts[i]).value.key == k
    {
      if k in table {
        var i :| 0 <= i < n && ParseSegment(parts[..n][i]).Some? && ParseSegment(parts[..n][i]).value.key == k;
        assert parts[i] == parts[..n][i];
      } else {
        assert ParseSegment(parts[n]).value.key == k;
      }
    }
    forall i | 0 <= i < |parts| && ParseSegment(parts[i]).Some?
      ensures var q := ParseSegment(parts[i]).value;
              q.key in table[p.key := p.val] && table[p.key := p.val][q.key] == q.val
    {
      if i < n { assert parts[..n][i] == parts[i]; }
    }
  }

  /** What the loop accepts, said without an order: every segment is good and no key repeats. */
  lemma {:induction false} CollectIs(parts: seq<string>)
    ensures Collect(parts).Some? <==> Wellformed(parts)
    ensures Collect(parts).Some? ==> Tabulates(parts, Collect(parts).value)
  {
    hide ParseSegment, Wellformed;
    if parts == [] {
      EmptyWellformed();
    } else {
      var n := |parts| - 1;
      CollectIs(parts[..n]);
      WellformedSnoc(parts);
      if Collect(parts[..n]).Some? && ParseSegment(parts[n]).Some? {
        var table, key := Collect(parts[..n]).value, ParseSegment(parts[n]).value.key;
        if key in table {
          var i :| 0 <= i < n && ParseSegment(parts[..n][i]).Some? && ParseSegment(parts[..n][i]).value.key == key;
          assert parts[i] == parts[..n][i];
        } else {
          forall i | 0 <= i < n && ParseSegment(parts[i]).Some? ensures ParseSegment(parts[i]).value.key != key {
            assert parts[..n][i] == parts[i];
          }
          TabulatesSnoc(parts, table);
        }
      }
    }
  }

  lemma EmptyWellformed()
    ensures Wellformed([])
  {
  }

  lemma PermutedWellformed(parts: seq<string>, other: seq<string>)
    requires multiset(parts) == multiset(other) && Wellformed(parts)
    ensures Wellformed(other)
  {
    hide ParseSegment;
    assert NoDup(parts);
    NoDupMultiset(parts);
    MultisetNoDup(other);
    forall i | 0 <= i < |other| ensures other[i] in parts {
      assert other[i] in multiset(other);
    }
    forall i, j | 0 <= i < j < |other|
      ensures ParseSegment(other[i]).Some? && ParseSegment(other[j]).Some?
      ensures ParseSegment(other[i]).value.key != ParseSegment(other[j]).value.key
    {
      var a :| 0 <= a < |parts| && parts[a] == other[i];
      var b :| 0 <= b < |parts| && parts[b] == other[j];
      assert a != b;
    }
  }

  lemma SameTable(parts: seq<string>, other: seq<string>, t: map<string, string>, u: map<string, string>)
    requires multiset(parts) == multiset(other) && Wellformed(parts) && Wellformed(other)
    requires Tabulates(parts, t) && Tabulates(other, u)
    ensures forall k :: k in t ==> k in u && u[k] == t[k]
  {
    hide ParseSegment;
    forall k | k in t ensures k in u && u[k] == t[k] {
      var i :| 0 <= i < |parts| && ParseSegment(parts[i]).Some? && ParseSegment(parts[i]).value.key == k;
      assert parts[i] in multiset(other);
      var j :| 0 <= j < |other| && other[j] == parts[i];
    }
  }

  /** The structured form means the same for every permutation of its segments. */
  lemma SegmentOrderIsFree(username: string, other: string, credential: string, defaultTTL: int, maxTTL: int,
                           dur: DurationParser)
    requires Split(username, '~')[0] == Split(other, '~')[0]
    requires multiset(Split(username, '~')[1..]) == multiset(Split(other, '~')[1..])
    ensures ParseStructured(username, credential, defaultTTL, maxTTL, dur) ==
              ParseStructured(other, credential, defaultTTL, maxTTL, dur)
  {
    hide ParseSegment, Collect, InfoOf, Wellformed, Tabulates;
    var parts, others := Split(username, '~')[1..], Split(other, '~')[1..];
    CollectIs(parts);
    CollectIs(others);
    if Collect(parts).Some? {
      PermutedWellformed(parts, others);
    }
    if Collect(others).Some? {
      PermutedWellformed(others, parts);
      var t, u := Collect(parts).value, Collect(others).value;
      SameTable(parts, others, t, u);
      SameTable(others, parts, u, t);
      assert t == u;
    }
  }

  // ------------------------------------------------------------ plain form

  /** The plain form once a trailing "-fast" has been taken off. */
  function ParsePlain(name: string, fast: bool, credential: string, defaultTTL: int, maxTTL: int,
                      dur: DurationParser): Option<SessionInfo> {
    if name == credential then Some(SessionInfo(credential, "", 0, "", "", fast))
    else if !HasPrefix(name, credential + "-") then None
    else
      var rest := name[|credential| + 1..];
      if rest == "" then Some(SessionInfo(credential, "", 0, "", "", false))
      else
        var i := LastIndexOf(rest, '-');
        var parsed := if 0 < i < |rest| - 1 then dur(rest[i + 1..]) else None;
        var sessionID := if parsed.Some? then rest[..i] else rest;
        var ttl := if parsed.Some? then parsed.value else defaultTTL;
        Some(SessionInfo(credential, sessionID, Clamp(ttl, defaultTTL, maxTTL), "", "", fast))
  }

  function ParseSessionUsername(username: string, credential: string, defaultTTL: int, maxTTL: int,
                                dur: DurationParser): Option<SessionInfo> {
    if '~' in username then ParseStructured(username, credential, defaultTTL, maxTTL, dur)
    else if username == credential + PLAIN_FAST then Some(SessionInfo(credential, "", 0, "", "", true))
    else
      var fast := HasSuffix(username, PLAIN_FAST);
      var name := if fast then username[..|username| - |PLAIN_FAST|] else username;
      ParsePlain(name, fast, credential, defaultTTL, maxTTL, dur)
  }

  /** A name that carries a session carries a usable time to live. */
  lemma SessionTTLBounds(username: string, credential: string, defaultTTL: int, maxTTL: int, dur: DurationParser)
    requires defaultTTL > 0 && maxTTL > 0
    ensures var r := ParseSessionUsername(username, credential, defaultTTL, maxTTL, dur);
            r.Some? ==> r.value.credential == credential &&
                        (if r.value.sessionID != "" then 0 < r.value.ttl <= maxTTL else r.value.ttl == 0)
  {
    hide Split, Collect, HasSuffix, HasPrefix, LastIndexOf;
  }

  /** A plain name ending in "-fast" is accepted exactly behind the credential and a dash, and is then fast, except
      behind the bare "credential-", where the mark is dropped. */
  lemma PlainFastIffSessionNotEmpty(username: string, credential: string, defaultTTL: int, maxTTL: int,
                                    dur: DurationParser)
    requires '~' !in username && HasSuffix(username, PLAIN_FAST)
    ensures var r := ParseSessionUsername(username, credential, defaultTTL, maxTTL, dur);
            && (r.Some? <==> HasPrefix(username, credential + "-"))
            && (r.Some? ==> (r.value.fast <==> username != credential + "-" + PLAIN_FAST))
  {
    hide LastIndexOf, Clamp, ParseStructured;
    var name := username[..|username| - |PLAIN_FAST|];
    assert username == name + PLAIN_FAST;
    assert name == credential + "-" <==> username == credential + "-" + PLAIN_FAST;
    if HasPrefix(name, credential + "-") {
      assert name == credential + "-" + name[|credential| + 1..];
    }
    PrefixBeforeFast(name, credential);
  }

  lemma PrefixBeforeFast(name: string, credential: string)
    ensures HasPrefix(name + PLAIN_FAST, credential + "-") <==> name == credential || HasPrefix(name, credential + "-")
  {
    var username, k := name + PLAIN_FAST, |credential|;
    if k < |name| {
      assert username[..k + 1] == name[..k + 1];
    } else if k < |username| {
      assert username[k] == PLAIN_FAST[k - |name|];
      assert k > |name| ==> PLAIN_FAST[k - |name|] != '-';
      assert k == |name| ==> username[..k] == name && username[..k + 1] == name + "-";
      assert username[..k + 1] == credential + "-" ==> username[k] == '-' && username[..k] == credential;
    }
  }

  /** No part behind a last dash, with something in front of it, is a duration. */
  ghost predicate NoDuration(rest: string, dur: DurationParser) {
    forall i :: 0 < i < |rest| - 1 && rest[i] == '-' && '-' !in rest[i + 1..] ==> dur(rest[i + 1..]).None?
  }

  /** "credential-session" and "credential-session-fast": the session runs to the end, dashes included, and gets the
      default lifetime. */
  lemma PlainSession(credential: string, session: string, fast: bool, defaultTTL: int, maxTTL: int, dur: DurationParser)
    requires '~' !in credential && '~' !in session && session != "" && NoDuration(session, dur)
    requires !fast ==> !HasSuffix("-" + session, "-fast")
    ensures ParseSessionUsername(credential + "-" + session + (if fast then "-fast" else ""), credential, defaultTTL,
                                 maxTTL, dur) ==
            Some(SessionInfo(credential, session, Clamp(0, defaultTTL, maxTTL), "", "", fast))
  {
    hide ParseStructured, Clamp, LastIndexOf, ParsePlain;
    var name := credential + "-" + session;
    NameFacts(name, fast);
    assert name[..|credential| + 1] == credential + "-" && name[|credential| + 1..] == session;
    WholeSession(name, credential, session, fast, defaultTTL, maxTTL, dur);
    if !fast {
      SuffixBehindDash(credential, session);
      assert name == credential + PLAIN_FAST ==> HasSuffix(name, PLAIN_FAST);
    }
  }

  lemma SuffixBehindDash(credential: string, session: string)
    ensures HasSuffix(credential + "-" + session, "-fast") && session != "" ==> HasSuffix("-" + session, "-fast")
  {
    var name, tail := credential + "-" + session, "-" + session;
    assert name == credential + tail;
    assert forall j :: 1 <= j < 5 ==> "-fast"[j] != '-';
    assert session != "" && |tail| < 5 <= |name| ==> name[|name| - 5..][5 - |tail|] == '-';
    if HasSuffix(name, "-fast") && |tail| >= 5 {
      assert tail[|tail| - 5..] == name[|name| - 5..];
    }
  }

  lemma WholeSession(name: string, credential: string, session: string, fast: bool, defaultTTL: int, maxTTL: int,
                     dur: DurationParser)
    requires name == credential + "-" + session && session != "" && NoDuration(session, dur)
    ensures ParsePlain(name, fast, credential, defaultTTL, maxTTL, dur) ==
            Some(SessionInfo(credential, session, Clamp(0, defaultTTL, maxTTL), "", "", fast))
  {
    hide LastIndexOf;
    assert name[..|credential| + 1] == credential + "-" && name[|credential| + 1..] == session;
    var i := LastIndexOf(session, '-');
    if 0 < i < |session| - 1 {
      assert '-' !in session[i + 1..];
    }
  }

  /** The credential alone is accepted, and with "-fast" it is fast; a credential that itself ends in "-fast" cannot be
      used alone, since its end is taken for the mark. */
  lemma BareCredential(credential: string, defaultTTL: int, maxTTL: int, dur: DurationParser)
    requires '~' !in credential
    ensures ParseSessionUsername(credential, credential, defaultTTL, maxTTL, dur) ==
            if HasSuffix(credential, "-fast") then None else Some(SessionInfo(credential, "", 0, "", "", false))
    ensures ParseSessionUsername(credential + "-fast", credential, defaultTTL, maxTTL, dur) ==
            Some(SessionInfo(credential, "", 0, "", "", true))
  {
    hide ParseStructured, LastIndexOf, Clamp;
    assert '~' !in "-fast";
  }

  /** A plain name that is not the credential and does not start with it and a dash is refused. */
  lemma PlainRejects(username: string, credential: string, defaultTTL: int, maxTTL: int, dur: DurationParser)
    requires '~' !in username && username != credential && !HasPrefix(username, credential + "-")
    ensures ParseSessionUsername(username, credential, defaultTTL, maxTTL, dur) == None
  {
    hide ParseStructured, LastIndexOf, Clamp;
    assert username != credential + PLAIN_FAST by {
      assert (credential + PLAIN_FAST)[..|credential| + 1] == credential + "-";
    }
    if HasSuffix(username, PLAIN_FAST) {
      var name := username[..|username| - |PLAIN_FAST|];
      assert username == name + PLAIN_FAST;
      PrefixBeforeFast(name, credential);
    }
  }

  /** The name whose fast mark is dropped: it is accepted, as the bare credential. */
  lemma EmptySessionLosesFast(credential: string, defaultTTL: int, maxTTL: int, dur: DurationParser)
    requires '~' !in credential
    ensures ParseSessionUsername(credential + "-" + PLAIN_FAST, credential, defaultTTL, maxTTL, dur) ==
            Some(SessionInfo(credential, "", 0, "", "", false))
  {
    var username := credential + "-" + PLAIN_FAST;
    assert HasSuffix(username, PLAIN_FAST) && username[..|username| - |PLAIN_FAST|] == credential + "-";
    assert (credential + "-")[|credential| + 1..] == "";
  }

  // ---------------------------------------- the two forms say the same thing

  /** "credential-session-ttl[-fast]". */
  function PlainName(credential: string, session: string, ttl: string, fast: bool): string {
    credential + "-" + session + "-" + ttl + (if fast then PLAIN_FAST else "")
  }

  /** "credential~session=session~ttl=ttl[~fast=true]". */
  function StructuredName(credential: string, session: string, ttl: string, fast: bool): string {
    credential + "~" + ("session=" + session + "~" + ("ttl=" + ttl + (if fast then "~fast=true" else "")))
  }

  lemma NotFastSuffix(head: string, ttl: string)
    requires '-' !in ttl && ttl != "fast"
    ensures !HasSuffix(head + "-" + ttl, PLAIN_FAST)
  {
    var s := head + "-" + ttl;
    if |ttl| >= 5 {
      assert s[|s| - 5] == ttl[|ttl| - 5];
    } else if |ttl| == 4 {
      assert s[|s| - 4..] == ttl;
      assert s[|s| - 5..][1..] == s[|s| - 4..];
      assert PLAIN_FAST[1..] == "fast";
    } else if |s| >= 5 {
      assert s[|s| - 5..][4 - |ttl|] == s[|head|];
    }
  }

  lemma LastDash(session: string, ttl: string)
    requires '-' !in ttl
    ensures LastIndexOf(session + "-" + ttl, '-') == |session|
  {
    hide LastIndexOf;
    var s := session + "-" + ttl;
    assert s[|session|] == '-';
    assert s[|session| + 1..] == ttl;
    assert forall k :: |session| < k < |s| ==> s[k] in s[|session| + 1..];
  }

  lemma RestParses(credential: string, session: string, ttl: string, fast: bool, defaultTTL: int, maxTTL: int,
                   dur: DurationParser)
    requires dur(ttl).Some? && session != "" && ttl != "" && '-' !in ttl
    ensures ParsePlain(credential + "-" + (session + "-" + ttl), fast, credential, defaultTTL, maxTTL, dur) ==
            Some(SessionInfo(credential, session, Clamp(dur(ttl).value, defaultTTL, maxTTL), "", "", fast))
  {
    hide LastIndexOf, Clamp;
    var rest := session + "-" + ttl;
    var name := credential + "-" + rest;
    LastDash(session, ttl);
    assert name[..|credential| + 1] == credential + "-" && name[|credential| + 1..] == rest;
    assert rest[..|session|] == session && rest[|session| + 1..] == ttl;
  }

  lemma PlainParses(credential: string, session: string, ttl: string, fast: bool, defaultTTL: int, maxTTL: int,
                    dur: DurationParser)
    requires ParsesDurations(dur) && dur(ttl).Some?
    requires '~' !in credential && '~' !in session && session != "" && '-' !in ttl
    ensures ParseSessionUsername(PlainName(credential, session, ttl, fast), credential, defaultTTL, maxTTL, dur) ==
            Some(SessionInfo(credential, session, Clamp(dur(ttl).value, defaultTTL, maxTTL), "", "", fast))
  {
    hide ParsePlain, Clamp, ParseStructured, Trimmed;
    var name := credential + "-" + (session + "-" + ttl);
    assert name == (credential + "-" + session) + "-" + ttl;
    NotFastSuffix(credential + "-" + session, ttl);
    RestParses(credential, session, ttl, fast, defaultTTL, maxTTL, dur);
    var username := PlainName(credential, session, ttl, fast);
    assert username == name + (if fast then PLAIN_FAST else "");
    NameFacts(name, fast);
    var dash := |credential| + 1 + |session|;
    assert username[dash] == '-';
    assert dash < |credential + PLAIN_FAST| ==> (credential + PLAIN_FAST)[dash] == PLAIN_FAST[1 + |session|];
  }

  lemma NameFacts(name: string, fast: bool)
    ensures var username := name + (if fast then PLAIN_FAST else "");
            && (fast ==> HasSuffix(username, PLAIN_FAST) && username[..|username| - |PLAIN_FAST|] == name)
            && (!fast ==> username == name)
            && ('~' in username <==> '~' in name)
  {
  }

  lemma SegmentOf(key: string, val: string)
    requires key in KEYS && val != "" && Trimmed(val)
    requires key == "fast" ==> val == "true"
    requires '=' !in key && Trimmed(key) && ToLower(key) == key
    ensures ParseSegment(key + "=" + val) == Some(Pair(key, val))
  {
    hide ToLower, TrimSpace, Trimmed;
    var part := key + "=" + val;
    assert part[|key|] == '=';
    assert forall j :: 0 <= j < |key| ==> part[j] == key[j];
    assert IndexOf(part, '=') == |key|;
    assert part[..|key|] == key && part[|key| + 1..] == val;
    TrimSpaceTrims(key);
    TrimSpaceTrims(val);
  }

  lemma SmallLetters(s: string)
    requires s != "" && forall i :: 0 <= i < |s| ==> 'a' <= s[i] <= 'z'
    ensures '=' !in s && '~' !in s && Trimmed(s) && ToLower(s) == s
  {
  }

  lemma KeyWord(k: string)
    requires k in KEYS || k == "true"
    ensures '=' !in k && '~' !in k && Trimmed(k) && ToLower(k) == k
  {
    hide ToLower, Trimmed;
    KeysAre(k);
    SmallLetters("fast");
    SmallLetters("plugin");
    SmallLetters("region");
    SmallLetters("session");
    SmallLetters("ttl");
    SmallLetters("true");
  }

  lemma KeyWords()
    ensures forall k :: k in KEYS ==> '=' !in k && '~' !in k && Trimmed(k) && ToLower(k) == k
    ensures Trimmed("true") && '~' !in "true" && ToLower("true") == "true"
  {
    hide ToLower, Trimmed, KEYS;
    KeyWord("true");
    forall k | k in KEYS ensures '=' !in k && '~' !in k && Trimmed(k) && ToLower(k) == k {
      KeyWord(k);
    }
  }

  /** The segments of the structured form behind the credential. */
  function Segments(session: string, ttl: string, fast: bool): seq<string> {
    ["session=" + session, "ttl=" + ttl] + (if fast then ["fast=true"] else [])
  }

  lemma CollectSession(session: string, ttl: string, fast: bool)
    requires session != "" && Trimmed(session) && ttl != "" && Trimmed(ttl)
    ensures Collect(Segments(session, ttl, fast)) ==
            Some(if fast then map["session" := session, "ttl" := ttl, "fast" := "true"]
              else map["session" := session, "ttl" := ttl])
  {
    hide ParseSegment, Trimmed;
    KeyWords();
    KeysDiffer();
    assert "session" in KEYS && "ttl" in KEYS && "fast" in KEYS;
    SegmentOf("session", session);
    SegmentOf("ttl", ttl);
    SegmentOf("fast", "true");
    assert "session" + "=" == "session=" && "ttl" + "=" == "ttl=" && "fast" + "=" + "true" == "fast=true";
    var one, two := ["session=" + session], ["session=" + session, "ttl=" + ttl];
    assert Collect([]) == Some(map[]);
    assert one[..0] == [] && two[..1] == one;
    assert Collect(one) == Some(map["session" := session]);
    assert Collect(two) == Some(map["session" := session, "ttl" := ttl]);
    var three := two + ["fast=true"];
    assert three[..2] == two;
    assert two + [] == two;
  }

  lemma StructuredSplits(credential: string, session: string, ttl: string, fast: bool)
    requires '~' !in credential && '~' !in session && '~' !in ttl
    ensures var username := StructuredName(credential, session, ttl, fast);
            '~' in username && Split(username, '~') == [credential] + Segments(session, ttl, fast)
  {
    hide Split;
    var username := StructuredName(credential, session, ttl, fast);
    var first, second := "session=" + session, "ttl=" + ttl;
    assert username[|credential|] == '~';
    var last := if fast then "~fast=true" else "";
    SplitPeels(credential, '~', first + "~" + (second + last));
    SplitPeels(first, '~', second + last);
    SplitPeels(second, '~', "fast=true");
    SplitPeels("fast=true", '~', "");
    assert second + "" == second;
    assert second + "~fast=true" == second + ['~'] + "fast=true";
  }

  lemma StructuredParses(credential: string, session: string, ttl: string, fast: bool, defaultTTL: int, maxTTL: int,
                         dur: DurationParser)
    requires ParsesDurations(dur) && dur(ttl).Some?
    requires '~' !in credential && '~' !in session && session != "" && Trimmed(session)
    ensures ParseSessionUsername(StructuredName(credential, session, ttl, fast), credential, defaultTTL, maxTTL, dur) ==
            Some(SessionInfo(credential, session, Clamp(dur(ttl).value, defaultTTL, maxTTL), "", "", fast))
  {
    hide Split, Collect, Trimmed, Clamp, StructuredName, ParsePlain;
    StructuredSplits(credential, session, ttl, fast);
    assert ([credential] + Segments(session, ttl, fast))[1..] == Segments(session, ttl, fast);
    CollectSession(session, ttl, fast);
    hide Segments;
    KeysDiffer();
    assert ToLower("") == "" && ToUpper("") == "";
  }

  /** The plain and the structured spelling of one session request parse to the same session info. */
  lemma PlainEqualsStructured(credential: string, session: string, ttl: string, fast: bool, defaultTTL: int,
                              maxTTL: int, dur: DurationParser)
    requires ParsesDurations(dur) && dur(ttl).Some? && '-' !in ttl
    requires '~' !in credential && '~' !in session && session != "" && Trimmed(session)
    ensures ParseSessionUsername(PlainName(credential, session, ttl, fast), credential, defaultTTL, maxTTL, dur) ==
            ParseSessionUsername(StructuredName(credential, session, ttl, fast), credential, defaultTTL, maxTTL, dur)
    ensures ParseSessionUsername(PlainName(credential, session, ttl, fast), credential, defaultTTL, maxTTL, dur) ==
            Some(SessionInfo(credential, session, Clamp(dur(ttl).value, defaultTTL, maxTTL), "", "", fast))
  {
    hide ParseSessionUsername, Trimmed, Clamp;
    PlainParses(credential, session, ttl, fast, defaultTTL, maxTTL, dur);
    StructuredParses(credential, session, ttl, fast, defaultTTL, maxTTL, dur);
  }
}
