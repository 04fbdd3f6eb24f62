/** `configure_nwdevice`: bring a CCW network device online with `znetconf`
    and persist it in an ifcfg file built from two fixed templates.

    The outcome of `znetconf` (its return code) and of writing the file are
    oracles; the model computes the commands run, the file written and the
    value returned. */
module NetworkDeviceConfig {

  datatype Option<T> = None | Some(value: T)

  type Command = seq<string>

  /** An ifcfg file the helper writes. */
  datatype CfgFile = CfgFile(path: string, content: string)

  /** What one call does: the commands it runs, the file it tries to write,
      and what it returns (`None` is Python's implicit `return`). */
  datatype ConfigureRun = ConfigureRun(commands: seq<Command>, write: Option<CfgFile>, ret: Option<int>)

  const DeviceIdPlaceholder := "<deviceid>"
  const SubchannelsPlaceholder := "<subchannels>"

  const IfcfgPathPrefix := "/etc/sysconfig/network-scripts/ifcfg-enccw"
  const IfcfgPathTemplate := IfcfgPathPrefix + DeviceIdPlaceholder

  const ContentHead := "DEVICE=enccw"
  const ContentMiddle := "\nTYPE=Ethernet" + "\nONBOOT=yes" + "\nNETTYPE=qeth" + "\nSUBCHANNELS="
  const IfcfgContentTemplate := ContentHead + DeviceIdPlaceholder + ContentMiddle + SubchannelsPlaceholder

  /** Whitespace as Python 2's `str.isspace` sees it. */
  predicate IsSpace(c: char)
  {
    c == ' ' || c == '\t' || c == '\n' || c == '\r' || c == '\U{0B}' || c == '\U{0C}'
  }

  /** `not t or t.isspace()`: empty, or nothing but whitespace. */
  predicate IsBlank(t: string)
  {
    forall i :: 0 <= i < |t| ==> IsSpace(t[i])
  }

  /** `t.split(',')[0]`: the text before the first comma, or all of `t` when
      it has none. */
  function DeviceId(t: string): (d: string)
    ensures |d| <= |t| && d == t[..|d|]
    ensures ',' !in d
    ensures |d| < |t| ==> t[|d|] == ','
  {
    if t == [] || t[0] == ',' then []
    else [t[0]] + DeviceId(t[1..])
  }

  /** Python's `s.replace(pat, rep)`: scan left to right and replace every
      non-overlapping occurrence of `pat`; the replacement text is not
      scanned again. */
  function ReplaceAll(s: string, pat: string, rep: string): string
    requires pat != []
    decreases |s|
  {
    if |s| < |pat| then s
    else if s[..|pat|] == pat then rep + ReplaceAll(s[|pat|..], pat, rep)
    else [s[0]] + ReplaceAll(s[1..], pat, rep)
  }

  /** Text that cannot start an occurrence passes through unchanged. */
  lemma {:induction false} ReplaceAllSkips(p: string, t: string, pat: string, rep: string)
    requires pat != [] && pat[0] !in p
    ensures ReplaceAll(p + t, pat, rep) == p + ReplaceAll(t, pat, rep)
  {
    if p != [] {
      var s := p + t;
      assert s[0] == p[0] && s[1..] == p[1..] + t;
      ReplaceAllSkips(p[1..], t, pat, rep);
      if |s| < |pat| {
        assert ReplaceAll(t, pat, rep) == t;
      } else {
        assert s[..|pat|][0] != pat[0];
        assert ReplaceAll(s, pat, rep) == [p[0]] + ReplaceAll(p[1..] + t, pat, rep);
        assert p == [p[0]] + p[1..];
      }
    } else {
      assert p + t == t;
    }
  }

  /** An occurrence at the front is replaced and scanning resumes after it. */
  lemma ReplaceAllHit(t: string, pat: string, rep: string)
    requires pat != []
    ensures ReplaceAll(pat + t, pat, rep) == rep + ReplaceAll(t, pat, rep)
  {
    assert (pat + t)[..|pat|] == pat;
    assert (pat + t)[|pat|..] == t;
  }

  /** The ifcfg path for a device id, for every device id. */
  lemma IfcfgPathFor(device: string)
    ensures ReplaceAll(IfcfgPathTemplate, DeviceIdPlaceholder, device) == IfcfgPathPrefix + device
  {
    ReplaceAllSkips(IfcfgPathPrefix, DeviceIdPlaceholder, DeviceIdPlaceholder, device);
    ReplaceAllHit([], DeviceIdPlaceholder, device);
  }

  /** The `<deviceid>` pass leaves the `<subchannels>` placeholder alone. */
  lemma SubchannelsSurvivesFirstPass(device: string)
    ensures ReplaceAll(SubchannelsPlaceholder, DeviceIdPlaceholder, device) == SubchannelsPlaceholder
  {
    var sub := SubchannelsPlaceholder;
    assert sub[..|DeviceIdPlaceholder|][1] == 's' != 'd' == DeviceIdPlaceholder[1];
    assert sub == [sub[0]] + (sub[1..] + []);
    ReplaceAllSkips(sub[1..], [], DeviceIdPlaceholder, device);
  }

  /** One placeholder between two stretches of text that cannot start it,
      followed by text the pass leaves alone. */
  lemma {:induction false} ReplaceAllOne(head: string, pat: string, rep: string, mid: string, rest: string)
    requires pat != [] && pat[0] !in head && pat[0] !in mid
    requires ReplaceAll(rest, pat, rep) == rest
    ensures ReplaceAll(head + pat + mid + rest, pat, rep) == head + rep + mid + rest
  {
    assert head + pat + mid + rest == head + (pat + (mid + rest));
    ReplaceAllSkips(head, pat + (mid + rest), pat, rep);
    ReplaceAllHit(mid + rest, pat, rep);
    ReplaceAllSkips(mid, rest, pat, rep);
    assert head + (rep + (mid + rest)) == head + rep + mid + rest;
  }

  /** The `<deviceid>` pass over the content template. */
  lemma ContentFirstPass(device: string)
    ensures ReplaceAll(IfcfgContentTemplate, DeviceIdPlaceholder, device)
            == ContentHead + device + ContentMiddle + SubchannelsPlaceholder
  {
    assert '<' !in ContentHead && '<' !in ContentMiddle;
    SubchannelsSurvivesFirstPass(device);
    ReplaceAllOne(ContentHead, DeviceIdPlaceholder, device, ContentMiddle, SubchannelsPlaceholder);
  }

  /** The `<subchannels>` pass over the result of the first one. */
  lemma ContentSecondPass(device: string, triplet: string)
    requires '<' !in device
    ensures ReplaceAll(ContentHead + device + ContentMiddle + SubchannelsPlaceholder, SubchannelsPlaceholder, triplet)
            == ContentHead + device + ContentMiddle + triplet
  {
    var lead := ContentHead + device + ContentMiddle;
    assert lead + SubchannelsPlaceholder == lead + (SubchannelsPlaceholder + []);
    ReplaceAllSkips(lead, SubchannelsPlaceholder + [], SubchannelsPlaceholder, triplet);
    ReplaceAllHit([], SubchannelsPlaceholder, triplet);
    assert triplet + [] == triplet;
  }

  /** The ifcfg content: `DEVICE=enccw<device>` and `SUBCHANNELS=<triplet>`
      filled in, provided the device id holds no `<` (which could otherwise
      spell the second placeholder and be replaced again). */
  lemma IfcfgContentFor(device: string, triplet: string)
    requires '<' !in device
    ensures ReplaceAll(ReplaceAll(IfcfgContentTemplate, DeviceIdPlaceholder, device), SubchannelsPlaceholder, triplet)
            == ContentHead + device + ContentMiddle + triplet
  {
    ContentFirstPass(device);
    ContentSecondPass(device, triplet);
  }

  /** `configure_nwdevice` with the return code of `znetconf -a` and whether
      writing the ifcfg file succeeds given as oracles. */
  function ConfigureNwDevice(deviceTriplet: string, znetconfRc: int, writeOk: bool): (run: ConfigureRun)
    ensures IsBlank(deviceTriplet) ==> run == ConfigureRun([], None, None)
    ensures !IsBlank(deviceTriplet) ==>
              run.commands == [["znetconf", "-a", DeviceId(deviceTriplet)]] && run.ret.Some?
    ensures znetconfRc != 0 ==> run.write == None && run.ret != Some(0)
    ensures run.write.Some? ==> run.write.value.path == IfcfgPathPrefix + DeviceId(deviceTriplet)
    ensures run.write.Some? && '<' !in DeviceId(deviceTriplet) ==>
              run.write.value.content == ContentHead + DeviceId(deviceTriplet) + ContentMiddle + deviceTriplet
    ensures !IsBlank(deviceTriplet) && (znetconfRc != 0 || !writeOk) ==> run.ret == Some(1)
    ensures run.ret == Some(0) <==> !IsBlank(deviceTriplet) && znetconfRc == 0 && writeOk
    ensures run.write.Some? <==> !IsBlank(deviceTriplet) && znetconfRc == 0
  {
    if IsBlank(deviceTriplet) then ConfigureRun([], None, None)
    else
      var device := DeviceId(deviceTriplet);
      var cmd := ["znetconf", "-a", device];
      if znetconfRc != 0 then ConfigureRun([cmd], None, Some(1))
      else
        var cfgFile := ReplaceAll(IfcfgPathTemplate, DeviceIdPlaceholder, device);
        var cfgContent := ReplaceAll(ReplaceAll(IfcfgContentTemplate, DeviceIdPlaceholder, device),
                                     SubchannelsPlaceholder, deviceTriplet);
        IfcfgPathFor(device);
        assert '<' !in device ==> cfgContent == ContentHead + device + ContentMiddle + deviceTriplet by {
          if '<' !in device {
            IfcfgContentFor(device, deviceTriplet);
          }
        }
        ConfigureRun([cmd], Some(CfgFile(cfgFile, cfgContent)), Some(if writeOk then 0 else 1))
  }
}
