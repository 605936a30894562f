/** Sharing: the share string of one stored profile (`shareConfig`), the
    clipboard action for one profile (`share2Clipboard`) and the text put on
    the clipboard for a list of profiles (`shareNonCustomConfigsToClipboard`). */
module Sharing {
  import opened Text
  import opened Profiles
  import opened Importer
  import opened ImporterProps

  /** The tags whose share string comes from a textual encoder. */
  predicate Encodable(t: ConfigType) {
    t != CUSTOM && t != HTTP
  }

  /** `shareConfig`: the scheme of the profile's tag followed by what the
      tag's encoder makes of it; CUSTOM and HTTP have no encoder and add
      nothing. A missing guid, or an encoder that throws, gives "". */
  function ShareConfig(env: Env, profiles: map<string, Profile>, guid: string): (share: string)
    ensures guid !in profiles ==> share == ""
    ensures share != "" ==> guid in profiles && IsPrefix(Scheme(profiles[guid].configType), share)
  {
    match Lookup(profiles, guid)
    case None => ""
    case Some(p) =>
      if !Encodable(p.configType) then Scheme(p.configType)
      else
        match env.toUri(p.configType, p)
        case None => ""
        case Some(u) =>
          assert (Scheme(p.configType) + u)[..|Scheme(p.configType)|] == Scheme(p.configType);
          Scheme(p.configType) + u
  }

  /** What a clipboard action reports: the status it returns and the text it
      hands to the clipboard (`None` when it does not touch it). */
  datatype ClipboardResult = ClipboardResult(status: int, clipboard: Option<string>)

  /** `share2Clipboard`: -1 and no clipboard write for an empty share string. */
  function Share2Clipboard(env: Env, profiles: map<string, Profile>, guid: string): (r: ClipboardResult)
    ensures r.status == 0 || r.status == -1
    ensures r.status == 0 <==> r.clipboard.Some?
    ensures r.clipboard.Some? ==>
      r.clipboard.value != "" && guid in profiles && IsPrefix(Scheme(profiles[guid].configType), r.clipboard.value)
  {
    var conf := ShareConfig(env, profiles, guid);
    if conf == "" then ClipboardResult(-1, None) else ClipboardResult(0, Some(conf))
  }

  /** The non-empty share strings of `guids`, in list order. */
  function NonEmptyShares(env: Env, profiles: map<string, Profile>, guids: seq<string>): (shares: seq<string>)
    ensures |shares| <= |guids|
    ensures forall i :: 0 <= i < |shares| ==> shares[i] != ""
    decreases |guids|
  {
    if guids == [] then []
    else
      var s := ShareConfig(env, profiles, guids[|guids| - 1]);
      NonEmptyShares(env, profiles, guids[..|guids| - 1]) + if s == "" then [] else [s]
  }

  /** The text the `StringBuilder` of `shareNonCustomConfigsToClipboard`
      holds after `guids`: each non-empty share string followed by "\n". */
  function SharedText(env: Env, profiles: map<string, Profile>, guids: seq<string>): (text: string)
    ensures text == "" || text[|text| - 1] == '\n'
    decreases |guids|
  {
    if guids == [] then ""
    else
      var s := ShareConfig(env, profiles, guids[|guids| - 1]);
      SharedText(env, profiles, guids[..|guids| - 1]) + if s == "" then "" else s + "\n"
  }

  /** One more guid appends its share string and a line feed, or nothing
      when its share string is empty. */
  lemma SharedTextStep(env: Env, profiles: map<string, Profile>, guids: seq<string>, i: nat)
    requires i < |guids|
    ensures var s := ShareConfig(env, profiles, guids[i]);
      SharedText(env, profiles, guids[..i + 1]) ==
        SharedText(env, profiles, guids[..i]) + if s == "" then "" else s + "\n"
  {
    assert guids[..i + 1][..i] == guids[..i];
    assert guids[..i + 1][i] == guids[i];
  }

  /** `shareNonCustomConfigsToClipboard`: status 0, and the clipboard is set
      to the text only when it is non-empty. */
  function ShareNonCustomConfigsToClipboard(env: Env, profiles: map<string, Profile>, guids: seq<string>): (r: ClipboardResult)
    ensures r.status == 0
    ensures guids == [] ==> r.clipboard.None?
    ensures r.clipboard.Some? ==> var text := r.clipboard.value; text != "" && text[|text| - 1] == '\n'
  {
    var text := SharedText(env, profiles, guids);
    ClipboardResult(0, if |text| > 0 then Some(text) else None)
  }

  // ---------------------------------------------------------------------
  // Properties
  // ---------------------------------------------------------------------

  /** The share string by tag: nothing for CUSTOM, the bare "http://" for
      HTTP, and for the other tags the scheme and the encoder's output, or
      nothing when the encoder fails. */
  lemma {:induction false} ShareByType(env: Env, profiles: map<string, Profile>, guid: string)
    requires guid in profiles
    ensures var p := profiles[guid];
      var share := ShareConfig(env, profiles, guid);
      && (p.configType == CUSTOM ==> share == "")
      && (p.configType == HTTP ==> share == "http://")
      && (Encodable(p.configType) && env.toUri(p.configType, p).None? ==> share == "")
      && (Encodable(p.configType) && env.toUri(p.configType, p).Some? ==>
            share == Scheme(p.configType) + env.toUri(p.configType, p).value)
  {
  }

  /** A share string of an encodable profile is routed by `parseConfig` back
      to the codec of the profile's own tag. */
  lemma {:induction false} ShareRoutesBack(env: Env, profiles: map<string, Profile>, guid: string)
    requires ShareConfig(env, profiles, guid) != ""
    requires Encodable(profiles[guid].configType)
    ensures Dispatch(ShareConfig(env, profiles, guid)) == Some(profiles[guid].configType)
  {
    var t := profiles[guid].configType;
    var share := ShareConfig(env, profiles, guid);
    if t == HYSTERIA2 {
      assert Announces(share, t);
    } else {
      assert Announces(share, t);
    }
    DispatchByPrefix(share, t);
  }

  /** The share string of an HTTP profile cannot be imported back: it has
      no known scheme, so `parseConfig` rejects it. */
  lemma {:induction false} HttpShareIsRejected(env: Env, st: Store, guid: string, subid: string,
                                               subItem: Option<SubscriptionItem>, removed: Option<Profile>)
    requires guid in st.profiles && st.profiles[guid].configType == HTTP
    ensures ParseConfig(env, st, Some(ShareConfig(env, st.profiles, guid)), subid, subItem, removed) ==
      Run(st, ToastIncorrectProtocol)
  {
    var share := ShareConfig(env, st.profiles, guid);
    assert share == "http://" && IsPrefix(share, share);
    forall t ensures !Announces(share, t) {
      match t
      case VMESS => NotBothPrefixes(Scheme(t), share, share, 0);
      case SHADOWSOCKS => NotBothPrefixes(Scheme(t), share, share, 0);
      case SOCKS => NotBothPrefixes(Scheme(t), share, share, 0);
      case VLESS => NotBothPrefixes(Scheme(t), share, share, 0);
      case TROJAN => NotBothPrefixes(Scheme(t), share, share, 1);
      case WIREGUARD => NotBothPrefixes(Scheme(t), share, share, 0);
      case HYSTERIA2 => NotBothPrefixes(Scheme(t), share, share, 1); NotBothPrefixes(Hy2Scheme, share, share, 1);
      case CUSTOM =>
      case HTTP =>
    }
    ParseConfigRejects(env, st, Some(share), subid, subItem, removed);
  }

  /** `share2Clipboard` succeeds exactly when there is a share string, and
      then hands that string to the clipboard. */
  lemma {:induction false} Share2ClipboardOutcome(env: Env, profiles: map<string, Profile>, guid: string)
    ensures var r := Share2Clipboard(env, profiles, guid);
      && (r.status == 0 <==> r.clipboard.Some?)
      && (r.status == 0 <==> ShareConfig(env, profiles, guid) != "")
      && (r.status != 0 ==> r.status == -1)
      && (r.clipboard.Some? ==> r.clipboard.value == ShareConfig(env, profiles, guid))
      && (guid !in profiles || profiles[guid].configType == CUSTOM ==> r == ClipboardResult(-1, None))
  {
  }

  lemma {:induction false} JoinTerminated(xs: seq<string>, y: string)
    ensures JoinLines(xs + [y] + [""]) == JoinLines(xs + [""]) + y + "\n"
    decreases |xs|
  {
    if xs == [] {
      assert [] + [y] + [""] == [y, ""];
      assert [y, ""][1..] == [""];
      assert [] + [""] == [""];
    } else {
      var rest := xs[1..];
      assert (xs + [y] + [""])[0] == xs[0];
      assert (xs + [y] + [""])[1..] == rest + [y] + [""];
      assert (xs + [""])[0] == xs[0];
      assert (xs + [""])[1..] == rest + [""];
      JoinTerminated(rest, y);
    }
  }

  /** The clipboard text is the non-empty share strings, in list order, each
      followed by a line feed. */
  lemma {:induction false} SharedTextIsTerminatedShares(env: Env, profiles: map<string, Profile>, guids: seq<string>)
    ensures SharedText(env, profiles, guids) == JoinLines(NonEmptyShares(env, profiles, guids) + [""])
    decreases |guids|
  {
    if guids != [] {
      var p := guids[..|guids| - 1];
      var s := ShareConfig(env, profiles, guids[|guids| - 1]);
      var xs := NonEmptyShares(env, profiles, p);
      SharedTextIsTerminatedShares(env, profiles, p);
      if s == "" {
        assert NonEmptyShares(env, profiles, guids) == xs + [];
        assert xs + [] == xs;
      } else {
        assert NonEmptyShares(env, profiles, guids) == xs + [s];
        JoinTerminated(xs, s);
      }
    }
  }

  /** Round trip: when no share string contains a line feed, cutting the
      clipboard text at line feeds gives back the share strings, in list
      order, followed by the empty piece after the last terminator. */
  lemma {:induction false} SharedTextSplitsIntoShares(env: Env, profiles: map<string, Profile>, guids: seq<string>)
    requires forall i :: 0 <= i < |guids| ==> NoNewline(ShareConfig(env, profiles, guids[i]))
    ensures SplitNewline(SharedText(env, profiles, guids)) == NonEmptyShares(env, profiles, guids) + [""]
  {
    var xs := NonEmptyShares(env, profiles, guids);
    NonEmptySharesNoNewline(env, profiles, guids);
    forall i | 0 <= i < |xs + [""]| ensures NoNewline((xs + [""])[i]) {
      if i < |xs| {
        assert (xs + [""])[i] == xs[i];
      }
    }
    SharedTextIsTerminatedShares(env, profiles, guids);
    JoinSplit(xs + [""]);
  }

  lemma {:induction false} NonEmptySharesNoNewline(env: Env, profiles: map<string, Profile>, guids: seq<string>)
    requires forall i :: 0 <= i < |guids| ==> NoNewline(ShareConfig(env, profiles, guids[i]))
    ensures forall i :: 0 <= i < |NonEmptyShares(env, profiles, guids)| ==>
      NoNewline(NonEmptyShares(env, profiles, guids)[i])
    decreases |guids|
  {
    if guids != [] {
      var p := guids[..|guids| - 1];
      forall i | 0 <= i < |p| ensures NoNewline(ShareConfig(env, profiles, p[i])) {
        assert p[i] == guids[i];
      }
      NonEmptySharesNoNewline(env, profiles, p);
      var s := ShareConfig(env, profiles, guids[|guids| - 1]);
      assert NoNewline(s);
    }
  }

  /** The clipboard is set exactly when some guid of the list has a share
      string; the status is always 0. */
  lemma {:induction false} ClipboardSetIffSomeShare(env: Env, profiles: map<string, Profile>, guids: seq<string>)
    ensures var r := ShareNonCustomConfigsToClipboard(env, profiles, guids);
      && r.status == 0
      && (r.clipboard.Some? <==> exists i :: 0 <= i < |guids| && ShareConfig(env, profiles, guids[i]) != "")
      && (r.clipboard.Some? ==> r.clipboard.value == SharedText(env, profiles, guids))
  {
    var text := SharedText(env, profiles, guids);
    SharedTextEmptyIffNoShare(env, profiles, guids);
    assert |text| > 0 <==> text != "";
    if text != "" {
      var i :| 0 <= i < |guids| && ShareConfig(env, profiles, guids[i]) != "";
    }
  }

  lemma {:induction false} SharedTextEmptyIffNoShare(env: Env, profiles: map<string, Profile>, guids: seq<string>)
    ensures SharedText(env, profiles, guids) == "" <==>
      forall i :: 0 <= i < |guids| ==> ShareConfig(env, profiles, guids[i]) == ""
    decreases |guids|
  {
    if guids != [] {
      var p := guids[..|guids| - 1];
      SharedTextEmptyIffNoShare(env, profiles, p);
      forall i | 0 <= i < |p| ensures p[i] == guids[i] { }
    }
  }

  /** Profiles of tag CUSTOM, and guids with no record, contribute nothing
      to the clipboard text. */
  lemma {:induction false} SharedTextSkipsCustom(env: Env, profiles: map<string, Profile>, guids: seq<string>, guid: string)
    requires guid !in profiles || profiles[guid].configType == CUSTOM
    ensures SharedText(env, profiles, guids + [guid]) == SharedText(env, profiles, guids)
  {
    assert (guids + [guid])[..|guids|] == guids;
    assert SharedText(env, profiles, guids) + "" == SharedText(env, profiles, guids);
  }
}
