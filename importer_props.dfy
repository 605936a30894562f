/** What the import pipeline guarantees, proved about the functions of
    module Importer. */
module ImporterProps {
  import opened Text
  import opened Profiles
  import opened Importer

  // ---------------------------------------------------------------------
  // Prefix dispatch
  // ---------------------------------------------------------------------

  /** Two strings that differ at `i` are not both prefixes of one string. */
  lemma {:induction false} NotBothPrefixes(p: string, q: string, s: string, i: nat)
    requires i < |p| && i < |q| && p[i] != q[i]
    ensures !(IsPrefix(p, s) && IsPrefix(q, s))
  {
    if |p| <= |s| && |q| <= |s| {
      assert s[..|p|][i] == s[i];
      assert s[..|q|][i] == s[i];
    }
  }

  /** No descriptor announces two protocols: the scheme prefixes are
      mutually exclusive, so the order of the tests decides nothing. */
  lemma {:induction false} AnnouncesUnique(s: string, t1: ConfigType, t2: ConfigType)
    requires Announces(s, t1) && Announces(s, t2)
    ensures t1 == t2
  {
    var vm, ss, so, tr, vl, wg, hy, h2 :=
      Scheme(VMESS), Scheme(SHADOWSOCKS), Scheme(SOCKS), Scheme(TROJAN),
      Scheme(VLESS), Scheme(WIREGUARD), Scheme(HYSTERIA2), Hy2Scheme;
    assert vm[0] == 'v' && vm[1] == 'm';
    assert ss[0] == 's' && ss[1] == 's';
    assert so[0] == 's' && so[1] == 'o';
    assert tr[0] == 't';
    assert vl[0] == 'v' && vl[1] == 'l';
    assert wg[0] == 'w';
    assert hy[0] == 'h' && hy[2] == 's';
    assert h2[0] == 'h' && h2[2] == '2';
    var all := [vm, ss, so, tr, vl, wg, hy, h2];
    forall a, b | 0 <= a < b < 8 && !(a == 6 && b == 7)
      ensures !(IsPrefix(all[a], s) && IsPrefix(all[b], s))
    {
      var i := if (a, b) == (0, 4) || (a, b) == (1, 2) then 1 else 0;
      NotBothPrefixes(all[a], all[b], s, i);
    }
  }

  /** `parseConfig` hands a descriptor to the codec of `t` exactly when the
      descriptor starts with one of the schemes of `t`. */
  lemma {:induction false} DispatchByPrefix(s: string, t: ConfigType)
    ensures Dispatch(s) == Some(t) <==> Announces(s, t)
  {
    if Announces(s, t) {
      match Dispatch(s)
      case Some(t') => AnnouncesUnique(s, t, t');
      case None =>
    }
  }

  /** A line with no known scheme is reported with `toast_incorrect_protocol`
      and stores nothing; null or empty input, with `toast_none_data`. */
  lemma {:induction false} ParseConfigRejects(env: Env, st: Store, str: Option<string>, subid: string,
                           subItem: Option<SubscriptionItem>, removed: Option<Profile>)
    ensures str.None? || str.value == "" ==>
      ParseConfig(env, st, str, subid, subItem, removed) == Run(st, ToastNoneData)
    ensures str.Some? && str.value != "" && (forall t :: !Announces(str.value, t)) ==>
      ParseConfig(env, st, str, subid, subItem, removed) == Run(st, ToastIncorrectProtocol)
    ensures str.Some? && str.value != "" && Dispatch(str.value).Some? &&
            env.parse(Dispatch(str.value).value, str.value).NoConfig? ==>
      ParseConfig(env, st, str, subid, subItem, removed) == Run(st, ToastIncorrectProtocol)
    ensures str.Some? && str.value != "" && Dispatch(str.value).Some? &&
            env.parse(Dispatch(str.value).value, str.value).Threw? ==>
      ParseConfig(env, st, str, subid, subItem, removed) == Run(st, -1)
  {
    if str.Some? && str.value != "" && Dispatch(str.value).Some? {
      DispatchByPrefix(str.value, Dispatch(str.value).value);
    }
  }

  /** The filter rule: a decoded profile is dropped with -1 exactly when the
      filter applies and the pattern occurs nowhere in the remarks; when it
      does not apply, the subscription plays no part. */
  lemma {:induction false} FilterRule(env: Env, str: string, subid: string, subItem: Option<SubscriptionItem>, c: Profile)
    requires str != "" && Dispatch(str).Some? && env.parse(Dispatch(str).value, str) == Decoded(c)
    ensures Classify(env, Some(str), subid, subItem) == Filtered <==>
      FilterApplies(subItem, c) && !env.containsMatchIn(subItem.value.filter.value, c.remarks)
    ensures Classify(env, Some(str), subid, subItem) != Filtered ==>
      Classify(env, Some(str), subid, subItem) == Imported(c.(subscriptionId := subid))
    ensures !FilterApplies(subItem, c) ==>
      Classify(env, Some(str), subid, subItem) == Classify(env, Some(str), subid, None)
  {
  }

  /** On status 0, `parseConfig` has stored exactly one new record, owned by
      `subid`, under a guid not used before, and has moved the selection to
      it exactly when the snapshot has the same host and port. */
  lemma {:induction false} ParseConfigSuccess(env: Env, st: Store, str: Option<string>, subid: string,
                           subItem: Option<SubscriptionItem>, removed: Option<Profile>)
    requires Valid(st)
    requires ParseConfig(env, st, str, subid, subItem, removed).result == 0
    ensures var r := ParseConfig(env, st, str, subid, subItem, removed);
      var rec := Classify(env, str, subid, subItem).record;
      var g := GuidOf(st.nextGuid);
      && g !in st.profiles
      && r.store.profiles == st.profiles[g := rec]
      && |r.store.profiles| == |st.profiles| + 1
      && rec.subscriptionId == subid
      && (SameEndpoint(rec, removed) ==> r.store.selected == g)
      && (!SameEndpoint(rec, removed) ==> r.store.selected == st.selected)
      && Valid(r.store)
  {
    assert GuidOf(st.nextGuid) !in st.profiles;
  }

  // ---------------------------------------------------------------------
  // A run of lines
  // ---------------------------------------------------------------------

  /** One more record of `NewRecords` goes under the next guid. */
  lemma {:induction false} NewRecordsLast(n0: nat, recs: seq<Profile>)
    requires recs != []
    ensures NewRecords(n0, recs) ==
      NewRecords(n0, recs[..|recs| - 1])[GuidOf(n0 + |recs| - 1) := recs[|recs| - 1]]
  {
  }

  /** One more record goes under the guid of the next generator state. */
  lemma {:induction false} NewRecordsSnoc(n0: nat, recs: seq<Profile>, rec: Profile, n: nat)
    requires n == n0 + |recs|
    ensures NewRecords(n0, recs + [rec]) == NewRecords(n0, recs)[GuidOf(n) := rec]
  {
    assert (recs + [rec])[..|recs|] == recs;
  }

  /** Where `NewRecords` puts each record: the one of index `i - n0` under
      the guid of generator state `i`. */
  lemma {:induction false} NewRecordsAt(n0: nat, recs: seq<Profile>)
    ensures forall i: nat :: n0 <= i < n0 + |recs| ==>
      GuidOf(i) in NewRecords(n0, recs) && NewRecords(n0, recs)[GuidOf(i)] == recs[i - n0]
    decreases |recs|
  {
    if recs != [] {
      var p := recs[..|recs| - 1];
      var g := GuidOf(n0 + |p|);
      var m := NewRecords(n0, p);
      var v := recs[|p|];
      NewRecordsAt(n0, p);
      NewRecordsLast(n0, recs);
      forall i: nat | n0 <= i < n0 + |recs|
        ensures GuidOf(i) in m[g := v] && m[g := v][GuidOf(i)] == recs[i - n0]
      {
        if i < n0 + |p| {
          GuidsDiffer(i, n0 + |p|);
          assert p[i - n0] == recs[i - n0];
        }
      }
    }
  }

  /** `NewRecords` uses no guid of a generator state outside `n0` to
      `n0 + |recs| - 1`. */
  lemma {:induction false} NewRecordsMisses(n0: nat, recs: seq<Profile>)
    ensures forall k: nat :: (k < n0 || n0 + |recs| <= k) ==> GuidOf(k) !in NewRecords(n0, recs)
    decreases |recs|
  {
    if recs != [] {
      var p := recs[..|recs| - 1];
      var g := GuidOf(n0 + |p|);
      NewRecordsMisses(n0, p);
      NewRecordsLast(n0, recs);
      forall k: nat | k < n0 || n0 + |recs| <= k ensures GuidOf(k) != g {
        GuidsDiffer(k, n0 + |p|);
      }
    }
  }

  /** From a valid store, every guid `NewRecords` uses is new. */
  lemma {:induction false} NewRecordsFresh(st: Store, recs: seq<Profile>)
    requires Valid(st)
    ensures forall g :: g in NewRecords(st.nextGuid, recs) ==> g !in st.profiles
    decreases |recs|
  {
    if recs != [] {
      NewRecordsFresh(st, recs[..|recs| - 1]);
      NewRecordsLast(st.nextGuid, recs);
      assert GuidOf(st.nextGuid + |recs| - 1) !in st.profiles;
    }
  }

  /** The values `NewRecords` stores are exactly the records. */
  lemma {:induction false} NewRecordsValues(n0: nat, recs: seq<Profile>)
    ensures NewRecords(n0, recs).Values == set k | 0 <= k < |recs| :: recs[k]
    decreases |recs|
  {
    if recs != [] {
      var p := recs[..|recs| - 1];
      NewRecordsValues(n0, p);
      NewRecordsMisses(n0, p);
      NewRecordsLast(n0, recs);
      var g := GuidOf(n0 + |p|);
      var m := NewRecords(n0, p);
      assert g !in m;
      assert NewRecords(n0, recs) == m[g := recs[|p|]];
      forall v | v in NewRecords(n0, recs).Values
        ensures v in set k | 0 <= k < |recs| :: recs[k]
      {
        var h :| h in m[g := recs[|p|]] && m[g := recs[|p|]][h] == v;
        if h != g {
          assert m[h] in m.Values;
          var k :| 0 <= k < |p| && p[k] == v;
          assert recs[k] == v;
        }
      }
      forall k | 0 <= k < |recs|
        ensures recs[k] in NewRecords(n0, recs).Values
      {
        if k < |p| {
          assert p[k] in m.Values;
          var h :| h in m && m[h] == p[k];
          assert h != g;
          assert m[g := recs[|p|]][h] == recs[k];
        } else {
          assert m[g := recs[|p|]][g] == recs[k];
        }
      }
    }
  }

  /** Records that all belong to `subid` are stored as records of `subid`. */
  lemma {:induction false} NewRecordsOwned(n0: nat, recs: seq<Profile>, subid: string)
    requires forall i :: 0 <= i < |recs| ==> recs[i].subscriptionId == subid
    ensures forall g :: g in NewRecords(n0, recs) ==> NewRecords(n0, recs)[g].subscriptionId == subid
    decreases |recs|
  {
    if recs != [] {
      NewRecordsOwned(n0, recs[..|recs| - 1], subid);
      NewRecordsLast(n0, recs);
    }
  }

  lemma {:induction false} UpdateUnion<K, V>(m1: map<K, V>, m2: map<K, V>, k: K, v: V)
    ensures (m1 + m2)[k := v] == m1 + m2[k := v]
  {
  }

  lemma {:induction false} PersistEffect(st: Store, rec: Profile, removed: Option<Profile>)
    ensures var r := Persist(st, rec, removed).store;
      && r.profiles == st.profiles[GuidOf(st.nextGuid) := rec]
      && r.nextGuid == st.nextGuid + 1
      && r.selected == (if SameEndpoint(rec, removed) then GuidOf(st.nextGuid) else st.selected)
      && r.subscriptions == st.subscriptions
      && r.subscriptionImports == st.subscriptionImports
      && r.updateAllCalls == st.updateAllCalls
  {
  }

  /** One line of a run: what the last line adds to the run of the others. */
  lemma {:induction false} RunLinesStep(env: Env, st: Store, lines: seq<string>, subid: string,
                     subItem: Option<SubscriptionItem>, removed: Option<Profile>)
    requires lines != []
    ensures var p := lines[..|lines| - 1];
      var before := RunLines(env, st, p, subid, subItem, removed);
      var o := Classify(env, Some(lines[|lines| - 1]), subid, subItem);
      var r := RunLines(env, st, lines, subid, subItem, removed);
      && Accepted(env, lines, subid, subItem) ==
           Accepted(env, p, subid, subItem) + (if o.Imported? then [o.record] else [])
      && (o.Imported? ==> r == Run(Persist(before.store, o.record, removed).store, before.result + 1))
      && (!o.Imported? ==> r == before)
  {
  }

  /** Running `lines`: the count is the number of accepted lines, and the
      generator advances once per accepted line. */
  lemma {:induction false} RunLinesCount(env: Env, st: Store, lines: seq<string>, subid: string,
                                         subItem: Option<SubscriptionItem>, removed: Option<Profile>)
    ensures var r := RunLines(env, st, lines, subid, subItem, removed);
      var acc := Accepted(env, lines, subid, subItem);
      && r.result == |acc|
      && r.store.nextGuid == st.nextGuid + |acc|
    decreases |lines|
  {
    if lines != [] {
      var p := lines[..|lines| - 1];
      RunLinesCount(env, st, p, subid, subItem, removed);
      RunLinesStep(env, st, lines, subid, subItem, removed);
    }
  }

  /** Running `lines` adds the accepted records under consecutive guids. */
  lemma {:induction false} RunLinesProfiles(env: Env, st: Store, lines: seq<string>, subid: string,
                                            subItem: Option<SubscriptionItem>, removed: Option<Profile>)
    ensures RunLines(env, st, lines, subid, subItem, removed).store.profiles ==
      st.profiles + NewRecords(st.nextGuid, Accepted(env, lines, subid, subItem))
    decreases |lines|
  {
    if lines == [] {
      assert st.profiles + map[] == st.profiles;
    } else {
      var p := lines[..|lines| - 1];
      RunLinesProfiles(env, st, p, subid, subItem, removed);
      RunLinesCount(env, st, p, subid, subItem, removed);
      RunLinesStep(env, st, lines, subid, subItem, removed);
      var before := RunLines(env, st, p, subid, subItem, removed);
      var accP := Accepted(env, p, subid, subItem);
      var o := Classify(env, Some(lines[|lines| - 1]), subid, subItem);
      if o.Imported? {
        var g := GuidOf(before.store.nextGuid);
        assert Accepted(env, lines, subid, subItem) == accP + [o.record];
        NewRecordsSnoc(st.nextGuid, accP, o.record, before.store.nextGuid);
        PersistEffect(before.store, o.record, removed);
        UpdateUnion(st.profiles, NewRecords(st.nextGuid, accP), g, o.record);
      } else {
        assert Accepted(env, lines, subid, subItem) == accP + [];
        assert accP + [] == accP;
      }
    }
  }

  /** Both of the above. */
  lemma {:induction false} RunLinesRecords(env: Env, st: Store, lines: seq<string>, subid: string,
                                           subItem: Option<SubscriptionItem>, removed: Option<Profile>)
    ensures var r := RunLines(env, st, lines, subid, subItem, removed);
      var acc := Accepted(env, lines, subid, subItem);
      && r.result == |acc|
      && r.store.nextGuid == st.nextGuid + |acc|
      && r.store.profiles == st.profiles + NewRecords(st.nextGuid, acc)
  {
    RunLinesCount(env, st, lines, subid, subItem, removed);
    RunLinesProfiles(env, st, lines, subid, subItem, removed);
  }

  /** After a run, the `j`-th accepted record is stored under the guid of
      generator state `st.nextGuid + j`. */
  lemma {:induction false} RunLinesStoresAt(env: Env, st: Store, lines: seq<string>, subid: string,
                                            subItem: Option<SubscriptionItem>, removed: Option<Profile>, j: nat)
    requires j < |Accepted(env, lines, subid, subItem)|
    ensures var r := RunLines(env, st, lines, subid, subItem, removed);
      && GuidOf(st.nextGuid + j) in r.store.profiles
      && r.store.profiles[GuidOf(st.nextGuid + j)] == Accepted(env, lines, subid, subItem)[j]
  {
    var acc := Accepted(env, lines, subid, subItem);
    RunLinesProfiles(env, st, lines, subid, subItem, removed);
    NewRecordsAt(st.nextGuid, acc);
    assert GuidOf(st.nextGuid + j) in NewRecords(st.nextGuid, acc);
  }

  /** The selection ends on the last accepted record that matches the
      snapshot, if any; otherwise it has not moved. */
  lemma {:induction false} RunLinesSelection(env: Env, st: Store, lines: seq<string>, subid: string,
                                             subItem: Option<SubscriptionItem>, removed: Option<Profile>)
    ensures var r := RunLines(env, st, lines, subid, subItem, removed);
      r.store.selected == SelectionAfter(st.selected, st.nextGuid, LastMatch(Accepted(env, lines, subid, subItem), removed))
    decreases |lines|
  {
    if lines != [] {
      var p := lines[..|lines| - 1];
      RunLinesSelection(env, st, p, subid, subItem, removed);
      RunLinesCount(env, st, p, subid, subItem, removed);
      RunLinesStep(env, st, lines, subid, subItem, removed);
      var before := RunLines(env, st, p, subid, subItem, removed);
      var accP := Accepted(env, p, subid, subItem);
      var o := Classify(env, Some(lines[|lines| - 1]), subid, subItem);
      if o.Imported? {
        LastMatchSnoc(accP, o.record, removed);
        PersistEffect(before.store, o.record, removed);
      } else {
        assert accP + [] == accP;
      }
    }
  }

  /** The last match after one more record: that record when it matches,
      else the last match before it. */
  lemma LastMatchSnoc(recs: seq<Profile>, rec: Profile, removed: Option<Profile>)
    ensures LastMatch(recs + [rec], removed) ==
      if SameEndpoint(rec, removed) then Some(|recs|) else LastMatch(recs, removed)
  {
    assert (recs + [rec])[..|recs|] == recs;
  }

  /** Adding `NewRecords` from generator state `n0` and advancing the
      generator past them keeps it ahead of the store. */
  lemma {:induction false} AddRecordsValid(st: Store, recs: seq<Profile>, r: Store)
    requires Valid(st)
    requires r.profiles == st.profiles + NewRecords(st.nextGuid, recs)
    requires r.nextGuid == st.nextGuid + |recs|
    ensures Valid(r)
  {
    NewRecordsMisses(st.nextGuid, recs);
  }

  lemma {:induction false} AcceptedAppend(env: Env, a: seq<string>, b: seq<string>, subid: string,
                                          subItem: Option<SubscriptionItem>)
    ensures Accepted(env, a + b, subid, subItem) == Accepted(env, a, subid, subItem) + Accepted(env, b, subid, subItem)
    decreases |b|
  {
    if b == [] {
      assert a + b == a;
    } else {
      var bp := b[..|b| - 1];
      AcceptedAppend(env, a, bp, subid, subItem);
      assert (a + b)[..|a + b| - 1] == a + bp;
      assert (a + b)[|a + b| - 1] == b[|b| - 1];
    }
  }

  /** Dropping what is not accepted commutes with reversing. */
  lemma {:induction false} AcceptedReversed(env: Env, xs: seq<string>, subid: string, subItem: Option<SubscriptionItem>)
    ensures Accepted(env, Reversed(xs), subid, subItem) == Reversed(Accepted(env, xs, subid, subItem))
    decreases |xs|
  {
    if xs != [] {
      var p := xs[..|xs| - 1];
      var last := [xs[|xs| - 1]];
      assert xs == p + last;
      assert Reversed(xs) == last + Reversed(p);
      AcceptedReversed(env, p, subid, subItem);
      AcceptedAppend(env, last, Reversed(p), subid, subItem);
      AcceptedAppend(env, p, last, subid, subItem);
      var al := Accepted(env, last, subid, subItem);
      assert last[..0] == [];
      assert |al| <= 1;
      assert Reversed(al) == al;
      ReversedAppend(Accepted(env, p, subid, subItem), al);
    }
  }

  /** The last match of the reversed records is the first match of the records. */
  lemma {:induction false} LastMatchOfReversed(recs: seq<Profile>, removed: Option<Profile>)
    ensures LastMatch(Reversed(recs), removed) ==
      match FirstMatch(recs, removed)
      case None => None
      case Some(k) => Some(|recs| - 1 - k)
  {
    var rv := Reversed(recs);
    var n := |recs|;
    match FirstMatch(recs, removed)
    case None =>
      forall j | 0 <= j < n ensures !SameEndpoint(rv[j], removed) {
        assert rv[j] == recs[n - 1 - j];
      }
    case Some(k) =>
      assert rv[n - 1 - k] == recs[k];
      var m := LastMatch(rv, removed).value;
      assert rv[m] == recs[n - 1 - m];
  }

  // ---------------------------------------------------------------------
  // A batch
  // ---------------------------------------------------------------------

  lemma {:induction false} BaseIsValid(st: Store, subid: string, append: bool)
    requires Valid(st)
    ensures Valid(BatchBase(st, subid, append))
    ensures BatchBase(st, subid, append).nextGuid == st.nextGuid
    ensures BatchBase(st, subid, append).subscriptions == st.subscriptions
    ensures BatchBase(st, subid, append).selected == st.selected
  {
  }

  /** A batch runs every line of `lines()` once, the lines whose first
      occurrence comes later first. */
  lemma {:induction false} BatchOrderOfText(text: string)
    ensures var order := BatchOrder(text);
      && NoDuplicates(order)
      && (forall l :: l in order <==> l in Lines(text))
      && (forall i, j :: 0 <= i < j < |order| ==> FirstIndex(Lines(text), order[j]) < FirstIndex(Lines(text), order[i]))
  {
    ReversedDistinctOrder(Lines(text));
  }

  /** `parseBatchConfig` on text is a run of its lines, in batch order,
      from the store without the records of `subid` (unless appending). */
  lemma {:induction false} BatchIsRun(env: Env, st: Store, text: string, subid: string, append: bool)
    ensures ParseBatchConfig(env, st, Some(text), subid, append) ==
      RunLines(env, BatchBase(st, subid, append), BatchOrder(text), subid,
               Lookup(st.subscriptions, subid), Snapshot(st, subid, append))
  {
  }

  /** `parseBatchConfig` on text returns the number of accepted lines and
      adds their records, in the order the lines are processed, under
      consecutive guids. */
  lemma {:induction false} BatchRecords(env: Env, st: Store, text: string, subid: string, append: bool)
    ensures var r := ParseBatchConfig(env, st, Some(text), subid, append);
      var acc := Accepted(env, BatchOrder(text), subid, Lookup(st.subscriptions, subid));
      && r.result == |acc|
      && r.store.profiles == BatchBase(st, subid, append).profiles + NewRecords(st.nextGuid, acc)
      && r.store.nextGuid == st.nextGuid + |acc|
  {
    BatchIsRun(env, st, text, subid, append);
    RunLinesRecords(env, BatchBase(st, subid, append), BatchOrder(text), subid,
                    Lookup(st.subscriptions, subid), Snapshot(st, subid, append));
  }

  /** ... and moves the selection to the last added record matching the
      snapshot, if any. */
  lemma {:induction false} BatchSelection(env: Env, st: Store, text: string, subid: string, append: bool)
    ensures var r := ParseBatchConfig(env, st, Some(text), subid, append);
      var acc := Accepted(env, BatchOrder(text), subid, Lookup(st.subscriptions, subid));
      r.store.selected == SelectionAfter(st.selected, st.nextGuid, LastMatch(acc, Snapshot(st, subid, append)))
  {
    var base := BatchBase(st, subid, append);
    var snap := Snapshot(st, subid, append);
    var acc := Accepted(env, BatchOrder(text), subid, Lookup(st.subscriptions, subid));
    BatchIsRun(env, st, text, subid, append);
    RunLinesSelection(env, base, BatchOrder(text), subid, Lookup(st.subscriptions, subid), snap);
  }

  /** ... and keeps the generator ahead of the store. */
  lemma {:induction false} BatchValid(env: Env, st: Store, text: string, subid: string, append: bool)
    requires Valid(st)
    ensures Valid(ParseBatchConfig(env, st, Some(text), subid, append).store)
  {
    BaseIsValid(st, subid, append);
    BatchRecords(env, st, text, subid, append);
    AddRecordsValid(BatchBase(st, subid, append),
                    Accepted(env, BatchOrder(text), subid, Lookup(st.subscriptions, subid)),
                    ParseBatchConfig(env, st, Some(text), subid, append).store);
  }

  /** Deletion: a non-appending batch keeps every record of another
      subscription and no old record of `subid` (also when `subid` is
      empty); an appending batch keeps every record. New records belong to
      `subid`. */
  lemma {:induction false} BatchReplacesSubscription(env: Env, st: Store, text: string, subid: string, append: bool)
    requires Valid(st)
    ensures var r := ParseBatchConfig(env, st, Some(text), subid, append);
      && (forall g :: g in st.profiles && (append || st.profiles[g].subscriptionId != subid) ==>
            g in r.store.profiles && r.store.profiles[g] == st.profiles[g])
      && (!append ==> forall g :: g in st.profiles && st.profiles[g].subscriptionId == subid ==>
            g !in r.store.profiles)
      && (forall g :: g in r.store.profiles && g !in st.profiles ==>
            r.store.profiles[g].subscriptionId == subid)
  {
    BatchRecords(env, st, text, subid, append);
    BatchSelection(env, st, text, subid, append);
    var r := ParseBatchConfig(env, st, Some(text), subid, append);
    var acc := Accepted(env, BatchOrder(text), subid, Lookup(st.subscriptions, subid));
    var base := BatchBase(st, subid, append).profiles;
    var nr := NewRecords(st.nextGuid, acc);
    assert r.store.profiles == base + nr;
    NewRecordsFresh(st, acc);
    NewRecordsOwned(st.nextGuid, acc, subid);
  }

  /** When the `j`-th accepted record is the last to match the snapshot, the
      run ends with the selection on it. */
  lemma {:induction false} RunLinesSelectsAt(env: Env, st: Store, lines: seq<string>, subid: string,
                                             subItem: Option<SubscriptionItem>, snap: Option<Profile>, j: nat)
    requires LastMatch(Accepted(env, lines, subid, subItem), snap) == Some(j)
    ensures var r := RunLines(env, st, lines, subid, subItem, snap);
      && r.store.selected == GuidOf(st.nextGuid + j)
      && r.store.selected in r.store.profiles
      && r.store.profiles[r.store.selected] == Accepted(env, lines, subid, subItem)[j]
  {
    RunLinesSelection(env, st, lines, subid, subItem, snap);
    RunLinesStoresAt(env, st, lines, subid, subItem, snap, j);
  }

  /** A run of the reversed input lines ends with the selection on the
      record of the earliest accepted input line that matches the snapshot;
      without one, the selection has not moved. */
  lemma {:induction false} ReversedRunSelection(env: Env, st: Store, ins: seq<string>, subid: string,
                                                subItem: Option<SubscriptionItem>, snap: Option<Profile>, n0: nat)
    requires n0 == st.nextGuid
    ensures var r := RunLines(env, st, Reversed(ins), subid, subItem, snap);
      var accIn := Accepted(env, ins, subid, subItem);
      match FirstMatch(accIn, snap)
      case None => r.store.selected == st.selected
      case Some(k) =>
        && r.store.selected == GuidOf(n0 + (|accIn| - 1 - k))
        && r.store.selected in r.store.profiles
        && r.store.profiles[r.store.selected] == accIn[k]
  {
    var accIn := Accepted(env, ins, subid, subItem);
    match FirstMatch(accIn, snap)
    case None =>
      AcceptedReversed(env, ins, subid, subItem);
      LastMatchOfReversed(accIn, snap);
      RunLinesSelection(env, st, Reversed(ins), subid, subItem, snap);
    case Some(k) =>
      ReversedRunSelectsAt(env, st, ins, subid, subItem, snap, k);
  }

  /** The case of `ReversedRunSelection` where the `k`-th accepted input
      record is the earliest match. */
  lemma {:induction false} ReversedRunSelectsAt(env: Env, st: Store, ins: seq<string>, subid: string,
                                                subItem: Option<SubscriptionItem>, snap: Option<Profile>, k: nat)
    requires FirstMatch(Accepted(env, ins, subid, subItem), snap) == Some(k)
    ensures var r := RunLines(env, st, Reversed(ins), subid, subItem, snap);
      var accIn := Accepted(env, ins, subid, subItem);
      && r.store.selected == GuidOf(st.nextGuid + (|accIn| - 1 - k))
      && r.store.selected in r.store.profiles
      && r.store.profiles[r.store.selected] == accIn[k]
  {
    var accIn := Accepted(env, ins, subid, subItem);
    AcceptedReversed(env, ins, subid, subItem);
    FirstMatchReversed(accIn, Accepted(env, Reversed(ins), subid, subItem), snap, k);
    RunLinesSelectsAt(env, st, Reversed(ins), subid, subItem, snap, |accIn| - 1 - k);
  }

  /** The earliest match at `k` is, in the reversed records, the last match
      at the mirrored index. */
  lemma {:induction false} FirstMatchReversed(recs: seq<Profile>, rv: seq<Profile>, removed: Option<Profile>, k: nat)
    requires rv == Reversed(recs)
    requires FirstMatch(recs, removed) == Some(k)
    ensures LastMatch(rv, removed) == Some(|recs| - 1 - k)
    ensures rv[|recs| - 1 - k] == recs[k]
  {
    LastMatchOfReversed(recs, removed);
  }

  /** Selection continuity: after a non-appending batch the selection is on
      the record of the EARLIEST input line (first occurrences, accepted
      lines only) with the snapshot's host and port; without such a line, or
      without a snapshot, it has not moved. */
  lemma {:induction false} SelectionEndsOnEarliestLine(env: Env, st: Store, text: string, subid: string)
    ensures var r := ParseBatchConfig(env, st, Some(text), subid, false);
      var snap := Snapshot(st, subid, false);
      var accIn := Accepted(env, Distinct(Lines(text)), subid, Lookup(st.subscriptions, subid));
      match FirstMatch(accIn, snap)
      case None => r.store.selected == st.selected
      case Some(k) =>
        && r.store.selected == GuidOf(st.nextGuid + (|accIn| - 1 - k))
        && r.store.selected in r.store.profiles
        && r.store.profiles[r.store.selected] == accIn[k]
  {
    var base := BatchBase(st, subid, false);
    BatchIsRun(env, st, text, subid, false);
    assert BatchOrder(text) == Reversed(Distinct(Lines(text)));
    assert base.nextGuid == st.nextGuid && base.subscriptions == st.subscriptions;
    ReversedRunSelection(env, base, Distinct(Lines(text)), subid,
                         Lookup(st.subscriptions, subid), Snapshot(st, subid, false), st.nextGuid);
  }

  /** Removing the records of `subid` undoes adding records of `subid`
      under new keys. */
  lemma {:induction false} RemoveUndoesAdd(m: map<string, Profile>, nr: map<string, Profile>, subid: string)
    requires RemoveViaSubid(m, subid).Keys !! nr.Keys
    requires forall g :: g in nr ==> nr[g].subscriptionId == subid
    ensures RemoveViaSubid(RemoveViaSubid(m, subid) + nr, subid) == RemoveViaSubid(m, subid)
  {
    var kept := RemoveViaSubid(m, subid);
    var back := RemoveViaSubid(kept + nr, subid);
    forall g ensures g in back <==> g in kept {
      if g in nr {
        assert g !in kept;
      }
    }
    forall g | g in back ensures back[g] == kept[g] {
      assert g !in nr;
    }
  }

  /** After a non-appending batch for `subid`, removing the records of
      `subid` gives what removing them gave before the batch. */
  lemma {:induction false} BatchThenRemove(env: Env, st: Store, text: string, subid: string)
    requires Valid(st)
    ensures RemoveViaSubid(ParseBatchConfig(env, st, Some(text), subid, false).store.profiles, subid) ==
      RemoveViaSubid(st.profiles, subid)
  {
    var acc := Accepted(env, BatchOrder(text), subid, Lookup(st.subscriptions, subid));
    BatchRecords(env, st, text, subid, false);
    NewRecordsFresh(st, acc);
    NewRecordsOwned(st.nextGuid, acc, subid);
    RemoveUndoesAdd(st.profiles, NewRecords(st.nextGuid, acc), subid);
  }

  /** The records stored after a batch: those of the base store and the
      accepted ones. */
  lemma {:induction false} BatchValues(env: Env, st: Store, text: string, subid: string, append: bool)
    requires Valid(st)
    ensures var acc := Accepted(env, BatchOrder(text), subid, Lookup(st.subscriptions, subid));
      ParseBatchConfig(env, st, Some(text), subid, append).store.profiles.Values ==
        BatchBase(st, subid, append).profiles.Values + set k | 0 <= k < |acc| :: acc[k]
  {
    var acc := Accepted(env, BatchOrder(text), subid, Lookup(st.subscriptions, subid));
    BatchRecords(env, st, text, subid, append);
    BaseIsValid(st, subid, append);
    NewRecordsFresh(BatchBase(st, subid, append), acc);
    NewRecordsValues(st.nextGuid, acc);
    UnionValues(BatchBase(st, subid, append).profiles, NewRecords(st.nextGuid, acc));
  }

  /** Re-importing the same text for the same subscription gives the same
      count and the same set of stored records (only the guids differ). */
  lemma {:induction false} ReimportIsIdempotent(env: Env, st: Store, text: string, subid: string)
    requires Valid(st)
    ensures var r1 := ParseBatchConfig(env, st, Some(text), subid, false);
      var r2 := ParseBatchConfig(env, r1.store, Some(text), subid, false);
      r2.result == r1.result && r2.store.profiles.Values == r1.store.profiles.Values
  {
    var r1 := ParseBatchConfig(env, st, Some(text), subid, false);
    BatchRecords(env, st, text, subid, false);
    BatchRecords(env, r1.store, text, subid, false);
    BatchValid(env, st, text, subid, false);
    BatchThenRemove(env, st, text, subid);
    BatchValues(env, st, text, subid, false);
    BatchValues(env, r1.store, text, subid, false);
  }

  /** The values of a union of maps with disjoint keys. */
  lemma {:induction false} UnionValues<K, V>(m1: map<K, V>, m2: map<K, V>)
    requires m1.Keys !! m2.Keys
    ensures (m1 + m2).Values == m1.Values + m2.Values
  {
    forall v | v in m1.Values ensures v in (m1 + m2).Values {
      var k :| k in m1 && m1[k] == v;
      assert (m1 + m2)[k] == v;
    }
    forall v | v in m2.Values ensures v in (m1 + m2).Values {
      var k :| k in m2 && m2[k] == v;
      assert (m1 + m2)[k] == v;
    }
  }

  // ---------------------------------------------------------------------
  // The decoding fallback
  // ---------------------------------------------------------------------

  /** The fallback order of `parseConfigViaSub`: a positive result is the
      count of the first batch, decoded then raw, that imported anything;
      the decoded batch comes first. */
  lemma {:induction false} ResolveOrder(env: Env, st: Store, server: Option<string>, subid: string, append: bool)
    requires Valid(st)
    ensures var r := ResolveConfigs(env, st, server, subid, append);
      var decoded := ParseBatchConfig(env, st, env.decode(server), subid, append);
      && (decoded.result > 0 ==> r == decoded)
      && (env.decode(server).Some? &&
          |Accepted(env, BatchOrder(env.decode(server).value), subid, Lookup(st.subscriptions, subid))| > 0
          ==> r == decoded)
      && (decoded.result == 0 ==>
            var raw := ParseBatchConfig(env, decoded.store, server, subid, append);
            r == if raw.result > 0 then raw else ParseCustomConfigServer(env, raw.store, server, subid))
  {
    if env.decode(server).Some? {
      BatchRecords(env, st, env.decode(server).value, subid, append);
      BatchSelection(env, st, env.decode(server).value, subid, append);
    }
  }

  /** When neither batch imports anything, the third attempt's STATUS is
      returned as the count: 0 when the custom config was imported (one new
      record), a positive resource id when the first piece decodes to
      nothing. */
  lemma {:induction false} CustomFallbackReportsStatus(env: Env, st: Store, server: string, subid: string, append: bool)
    requires server != ""
    requires ParseBatchConfig(env, st, env.decode(Some(server)), subid, append).result == 0
    requires ParseBatchConfig(env, ParseBatchConfig(env, st, env.decode(Some(server)), subid, append).store,
                              Some(server), subid, append).result == 0
    ensures var r := ResolveConfigs(env, st, Some(server), subid, append);
      var first := env.decode(Some(SplitNewline(server)[0]));
      && (first.None? || first.value == "" ==> r.result == ToastNoneData && r.result > 0)
      && (Classify(env, first, subid, None).Imported? ==> r.result == 0)
      && r.result == StatusOf(Classify(env, first, subid, None))
  {
    var decoded := ParseBatchConfig(env, st, env.decode(Some(server)), subid, append);
    var raw := ParseBatchConfig(env, decoded.store, Some(server), subid, append);
    var first := env.decode(Some(SplitNewline(server)[0]));
    assert ResolveConfigs(env, st, Some(server), subid, append) ==
      ParseConfig(env, raw.store, first, subid, None, None);
  }

  /** The selection is transferred only by the decoded attempt: once the
      text decodes to something that imports nothing, the non-appending
      decoded attempt has already removed the selected record of `subid`,
      so the raw and custom attempts run without a snapshot and the
      selection stays where it was. */
  lemma {:induction false} SnapshotLostAfterDecodedAttempt(env: Env, st: Store, server: Option<string>, subid: string)
    requires Valid(st)
    requires env.decode(server).Some?
    requires ParseBatchConfig(env, st, env.decode(server), subid, false).result == 0
    ensures ResolveConfigs(env, st, server, subid, false).store.selected == st.selected
  {
    var decoded := ParseBatchConfig(env, st, env.decode(server), subid, false);
    EmptyBatchDropsSnapshot(env, st, env.decode(server).value, subid);
    var raw := ParseBatchConfig(env, decoded.store, server, subid, false);
    if server.Some? {
      NoSnapshotKeepsSelection(env, decoded.store, server.value, subid, false);
    }
    assert raw.store.selected == st.selected;
    assert ParseCustomConfigServer(env, raw.store, server, subid).store.selected == st.selected;
    assert ResolveConfigs(env, st, server, subid, false) ==
      if raw.result > 0 then raw else ParseCustomConfigServer(env, raw.store, server, subid);
  }

  /** A non-appending batch that imports nothing keeps the selection but
      leaves no record of `subid` to snapshot. */
  lemma {:induction false} EmptyBatchDropsSnapshot(env: Env, st: Store, text: string, subid: string)
    requires ParseBatchConfig(env, st, Some(text), subid, false).result == 0
    ensures var d := ParseBatchConfig(env, st, Some(text), subid, false);
      d.store.selected == st.selected && Snapshot(d.store, subid, false).None?
  {
    var d := ParseBatchConfig(env, st, Some(text), subid, false);
    EmptyBatch(env, st, text, subid, false);
    assert d.store.profiles == RemoveViaSubid(st.profiles, subid);
  }

  /** A batch that imports nothing leaves the base store's records and the
      selection. */
  lemma {:induction false} EmptyBatch(env: Env, st: Store, text: string, subid: string, append: bool)
    requires ParseBatchConfig(env, st, Some(text), subid, append).result == 0
    ensures var r := ParseBatchConfig(env, st, Some(text), subid, append);
      && r.store.profiles == BatchBase(st, subid, append).profiles
      && r.store.selected == st.selected
  {
    var acc := Accepted(env, BatchOrder(text), subid, Lookup(st.subscriptions, subid));
    BatchRecords(env, st, text, subid, append);
    BatchSelection(env, st, text, subid, append);
    assert acc == [];
    assert NewRecords(st.nextGuid, acc) == map[];
    assert LastMatch(acc, Snapshot(st, subid, append)).None?;
    assert BatchBase(st, subid, append).profiles + map[] == BatchBase(st, subid, append).profiles;
  }

  /** Without a snapshot a batch does not move the selection. */
  lemma {:induction false} NoSnapshotKeepsSelection(env: Env, st: Store, text: string, subid: string, append: bool)
    requires Snapshot(st, subid, append).None?
    ensures ParseBatchConfig(env, st, Some(text), subid, append).store.selected == st.selected
  {
    BatchSelection(env, st, text, subid, append);
  }

  /** Empty pasted text, with a `decode` that finds nothing in it (null or
      ""), imports no configuration and no subscription. */
  lemma {:induction false} EmptyTextImportsNothing(env: Env, st: Store, subid: string, append: bool)
    requires Valid(st)
    requires env.decode(Some("")) == None || env.decode(Some("")) == Some("")
    requires !env.isValidSubUrl("")
    ensures var r := ImportBatchConfig(env, st, Some(""), subid, append);
      && r.configCount == 0 && r.subscriptionCount == 0
      && r.store.updateAllCalls == st.updateAllCalls
      && r.store.selected == st.selected
      && (append ==> r.store.profiles == st.profiles)
      && (!append ==> r.store.profiles == RemoveViaSubid(st.profiles, subid))
  {
    var configs := ResolveConfigs(env, st, Some(""), subid, append);
    EmptyTextResolve(env, st, subid, append);
    EmptyTextLinks(env, configs.store);
    assert ImportBatchConfig(env, st, Some(""), subid, append) ==
      ImportResult(configs.store, 0, ParseBatchSubscription(env, configs.store, env.decode(Some(""))).result);
  }

  /** The empty text holds no subscription link. */
  lemma {:induction false} EmptyTextLinks(env: Env, st: Store)
    requires !env.isValidSubUrl("")
    ensures ParseBatchSubscription(env, st, Some("")) == Run(st, 0)
  {
    assert Lines("") == [""];
    assert Distinct([""]) == [""];
    assert SubUrls(env, [""]) == [];
  }

  /** The configuration half of an empty-text import: nothing imported, the
      deletion of a non-appending batch, no move of the selection. */
  lemma {:induction false} EmptyTextResolve(env: Env, st: Store, subid: string, append: bool)
    requires env.decode(Some("")) == None || env.decode(Some("")) == Some("")
    ensures var r := ResolveConfigs(env, st, Some(""), subid, append);
      && r.result == 0
      && r.store.profiles == BatchBase(st, subid, append).profiles
      && r.store.selected == st.selected
  {
    var d := ParseBatchConfig(env, st, env.decode(Some("")), subid, append);
    EmptyTextBatch(env, st, subid, append);
    assert d.result == 0 && d.store.selected == st.selected;
    assert d.store.profiles == st.profiles || d.store.profiles == BatchBase(st, subid, append).profiles;
    var raw := ParseBatchConfig(env, d.store, Some(""), subid, append);
    EmptyTextBatch(env, d.store, subid, append);
    if !append {
      RemoveTwice(st.profiles, subid);
    }
    assert raw.store.profiles == BatchBase(st, subid, append).profiles;
    assert ResolveConfigs(env, st, Some(""), subid, append) == Run(raw.store, 0);
  }

  /** Deleting the records of `subid` a second time deletes nothing more. */
  lemma {:induction false} RemoveTwice(m: map<string, Profile>, subid: string)
    ensures RemoveViaSubid(RemoveViaSubid(m, subid), subid) == RemoveViaSubid(m, subid)
  {
  }

  /** A batch of the empty text imports nothing. */
  lemma {:induction false} EmptyTextBatch(env: Env, st: Store, subid: string, append: bool)
    ensures var r := ParseBatchConfig(env, st, Some(""), subid, append);
      && r.result == 0
      && r.store.profiles == BatchBase(st, subid, append).profiles
      && r.store.selected == st.selected
      && r.store.updateAllCalls == st.updateAllCalls
  {
    assert Lines("") == [""];
    assert Distinct([""]) == [""];
    assert BatchOrder("") == [""];
    assert Accepted(env, [""], subid, Lookup(st.subscriptions, subid)) == [];
    BatchRecords(env, st, "", subid, append);
    EmptyBatch(env, st, "", subid, append);
  }

  /** The subscription lines of a text are its valid lines, in text order:
      choosing distributes over concatenation, and one line is chosen
      exactly when it is valid. */
  lemma {:induction false} SubUrlsIsFilter(env: Env, a: seq<string>, b: seq<string>)
    ensures SubUrls(env, a + b) == SubUrls(env, a) + SubUrls(env, b)
    ensures forall x :: SubUrls(env, [x]) == if env.isValidSubUrl(x) then [x] else []
  {
    SubUrlsAppend(env, a, b);
    forall x ensures SubUrls(env, [x]) == if env.isValidSubUrl(x) then [x] else [] {
      assert [x][..0] == [];
    }
  }

  lemma {:induction false} SubUrlsAppend(env: Env, a: seq<string>, b: seq<string>)
    ensures SubUrls(env, a + b) == SubUrls(env, a) + SubUrls(env, b)
    decreases |b|
  {
    if b != [] {
      var p := b[..|b| - 1];
      var x := b[|b| - 1];
      var tail := if env.isValidSubUrl(x) then [x] else [];
      SubUrlsAppend(env, a, p);
      SubUrlsSnoc(env, a, b);
      var ua, up := SubUrls(env, a), SubUrls(env, p);
      assert ua + up + tail == ua + (up + tail);
    } else {
      assert a + b == a;
    }
  }

  /** Every line that passes `isValidSubUrl` is chosen. */
  lemma {:induction false} SubUrlsComplete(env: Env, lines: seq<string>)
    ensures forall i :: 0 <= i < |lines| && env.isValidSubUrl(lines[i]) ==> lines[i] in SubUrls(env, lines)
    decreases |lines|
  {
    if lines != [] {
      var p := lines[..|lines| - 1];
      SubUrlsComplete(env, p);
      forall i | 0 <= i < |p| ensures p[i] == lines[i] { }
    }
  }

  lemma {:induction false} SubUrlsSnoc(env: Env, a: seq<string>, b: seq<string>)
    requires b != []
    ensures var x := b[|b| - 1];
      var tail := if env.isValidSubUrl(x) then [x] else [];
      && SubUrls(env, a + b) == SubUrls(env, a + b[..|b| - 1]) + tail
      && SubUrls(env, b) == SubUrls(env, b[..|b| - 1]) + tail
  {
    assert (a + b)[..|a + b| - 1] == a + b[..|b| - 1];
    assert (a + b)[|a + b| - 1] == b[|b| - 1];
  }

  /** `importBatchConfig` as its three steps: the configurations, the links
      of the raw text or else of the decoded text, and update-all. */
  lemma {:induction false} ImportBatchSteps(env: Env, st: Store, server: Option<string>, subid: string, append: bool,
                                            configs: Run, raw: Run, subs: Run)
    requires configs == ResolveConfigs(env, st, server, subid, append)
    requires raw == ParseBatchSubscription(env, configs.store, server)
    requires subs == if raw.result <= 0 then ParseBatchSubscription(env, raw.store, env.decode(server)) else raw
    ensures ImportBatchConfig(env, st, server, subid, append) ==
      ImportResult(UpdateAllWhen(subs.store, subs.result > 0), configs.result, subs.result)
  {
  }

  /** `importBatchConfig`: the config count is that of the fallback; the
      subscription count sums `importUrlAsSubscription` over the distinct
      valid subscription lines of the raw text, or of the decoded text when
      the raw text gave nothing; update-all runs exactly when it is
      positive; the subscription scan leaves the profiles alone. */
  lemma {:induction false} ImportBatchCounts(env: Env, st: Store, server: Option<string>, subid: string, append: bool)
    ensures var r := ImportBatchConfig(env, st, server, subid, append);
      var configs := ResolveConfigs(env, st, server, subid, append);
      var raw := if server.None? then 0 else SumImports(env, SubUrls(env, Distinct(Lines(server.value))));
      var dec := env.decode(server);
      var decoded := if dec.None? then 0 else SumImports(env, SubUrls(env, Distinct(Lines(dec.value))));
      && r.configCount == configs.result
      && r.subscriptionCount == (if raw > 0 then raw else decoded)
      && r.store.updateAllCalls == configs.store.updateAllCalls + (if r.subscriptionCount > 0 then 1 else 0)
      && r.store.profiles == configs.store.profiles
      && r.store.selected == configs.store.selected
  {
  }

  // ---------------------------------------------------------------------
  // One subscription update
  // ---------------------------------------------------------------------

  /** `updateConfigViaSub`: 0 with no fetch and no change unless the
      subscription passes every guard; the direct fetch is tried exactly
      when the proxied one gave empty text or failed; 0 with no change when
      both are empty; otherwise the body goes through the decoding fallback
      as a non-appending import of `subid`. */
  lemma {:induction false} UpdateFetchFallback(env: Env, st: Store, subid: string, item: SubscriptionItem, deviceId: string,
                            proxied: Fetch, direct: Fetch)
    ensures var r := UpdateConfigViaSub(env, st, subid, item, deviceId, proxied, direct);
      && ((subid == "" || item.remarks == "" || item.url == "" || !item.enabled ||
           !env.isValidUrl(env.idnToASCII(item.url))) ==> r == SyncResult(st, 0, []))
      && (SyncGuardPasses(env, subid, item) ==>
            var url := RequestUrl(env, item, deviceId);
            && |r.fetches| >= 1 && r.fetches[0] == ProxiedFetch(url)
            && (|r.fetches| == 2 <==> TextOf(proxied) == "")
            && (|r.fetches| == 2 ==> r.fetches[1] == DirectFetch(url))
            && |r.fetches| <= 2)
      && (TextOf(proxied) == "" && TextOf(direct) == "" ==> r.store == st && r.count == 0)
      && (SyncGuardPasses(env, subid, item) && (TextOf(proxied) != "" || TextOf(direct) != "") ==>
            var text := if TextOf(proxied) != "" then TextOf(proxied) else TextOf(direct);
            Run(r.store, r.count) == ResolveConfigs(env, st, Some(text), subid, false))
  {
  }

  /** Each early return of `updateConfigViaSub`'s guards gives 0, makes no
      fetch and leaves the store alone. */
  lemma {:induction false} SyncGuardEarlyReturns(env: Env, st: Store, subid: string, item: SubscriptionItem,
                                                 deviceId: string, proxied: Fetch, direct: Fetch)
    ensures var r := UpdateConfigViaSub(env, st, subid, item, deviceId, proxied, direct);
      && (subid == "" ==> r == SyncResult(st, 0, []))
      && (item.remarks == "" ==> r == SyncResult(st, 0, []))
      && (item.url == "" ==> r == SyncResult(st, 0, []))
      && (!item.enabled ==> r == SyncResult(st, 0, []))
      && (!env.isValidUrl(env.idnToASCII(item.url)) ==> r == SyncResult(st, 0, []))
  {
  }
}
