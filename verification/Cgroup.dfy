/** From `/proc/<pid>/cgroup` to the pod UID and the container id. */
module Cgroup {
  import opened Text
  import opened Keys

  const MAX_POD_UID_LEN: nat := 253

  datatype CgroupIdentity = CgroupIdentity(podUid: string, containerId: string)

  predicate IsUidChar(c: char) {
    '0' <= c <= '9' || 'a' <= c <= 'f' || c == '-'
  }

  predicate IsPodUid(s: string) {
    0 < |s| <= MAX_POD_UID_LEN && forall i :: 0 <= i < |s| ==> IsUidChar(s[i])
  }

  predicate IsHexDigit(c: char) {
    '0' <= c <= '9' || 'a' <= c <= 'f' || 'A' <= c <= 'F'
  }

  predicate IsContainerId(s: string) {
    |s| >= 12 && forall i :: 0 <= i < |s| ==> IsHexDigit(s[i])
  }

  function Replace(s: string, from: char, to: char): (r: string)
    ensures |r| == |s| && forall i :: 0 <= i < |s| ==> r[i] == if s[i] == from then to else s[i]
  {
    if s == [] then [] else [if s[0] == from then to else s[0]] + Replace(s[1..], from, to)
  }

  function ExtractPodUid(seg: string): Option<string> {
    var s := StripSuffix(seg, ".slice");
    var dash := Find(s, "-pod");
    if !StartsWith(s, "pod") && dash.None? then None
    else
      var uid := Replace(if StartsWith(s, "pod") then s[3..] else s[dash.value + 4..], '_', '-');
      if IsPodUid(uid) then Some(uid) else None
  }

  function StripRuntime(s: string): string {
    if StartsWith(s, "cri-containerd-") then s[15..]
    else if StartsWith(s, "docker-") then s[7..]
    else if StartsWith(s, "crio-") then s[5..]
    else s
  }

  function ExtractContainerId(seg: string): Option<string> {
    var s := StripRuntime(StripSuffix(seg, ".scope"));
    if IsContainerId(s) then Some(s) else None
  }

  /** Find the first segment with a pod UID; the segment right below it is the container. */
  function ParseSegments(segments: seq<string>): Option<CgroupIdentity> {
    if segments == [] then None
    else if segments[0] == "" then ParseSegments(segments[1..])
    else match ExtractPodUid(segments[0])
      case None => ParseSegments(segments[1..])
      case Some(uid) => ParseContainer(uid, segments[1..])
  }

  function ParseContainer(uid: string, segments: seq<string>): Option<CgroupIdentity> {
    if segments == [] then None
    else if segments[0] == "" then ParseContainer(uid, segments[1..])
    else match ExtractContainerId(segments[0])
      case None => None
      case Some(cid) => Some(CgroupIdentity(uid, cid))
  }

  function ParseCgroupPath(path: string): Option<CgroupIdentity> {
    ParseSegments(Split(path, '/'))
  }

  /** `line.rsplit(':').next()`: what follows the last colon. */
  function AfterLastColon(line: string): string {
    var parts := Split(line, ':');
    parts[|parts| - 1]
  }

  /** A carriage return goes with the line feed that ended the line, so the last piece keeps its own. */
  function LineOf(pieces: seq<string>): string
    requires pieces != []
  {
    if |pieces| > 1 then StripSuffix(pieces[0], "\r") else pieces[0]
  }

  function ParseLines(pieces: seq<string>): Option<CgroupIdentity> {
    if pieces == [] then None
    else
      var id := ParseCgroupPath(AfterLastColon(LineOf(pieces)));
      if id.Some? then id else ParseLines(pieces[1..])
  }

  function ParseCgroup(content: string): Option<CgroupIdentity> {
    ParseLines(Split(content, '\n'))
  }

  // ----- every parsed identity is fit for keys and URLs -----

  ghost predicate ValidIdentity(id: CgroupIdentity) {
    IsPodUid(id.podUid) && IsContainerId(id.containerId)
  }

  lemma {:induction false} ContainerIsValid(uid: string, segments: seq<string>)
    requires IsPodUid(uid)
    ensures var r := ParseContainer(uid, segments); r.Some? ==> ValidIdentity(r.value)
  {
    if segments != [] && segments[0] == "" {
      ContainerIsValid(uid, segments[1..]);
    }
  }

  lemma {:induction false} SegmentsAreValid(segments: seq<string>)
    ensures var r := ParseSegments(segments); r.Some? ==> ValidIdentity(r.value)
  {
    if segments != [] {
      SegmentsAreValid(segments[1..]);
      match ExtractPodUid(segments[0])
      case None =>
      case Some(uid) => ContainerIsValid(uid, segments[1..]);
    }
  }

  lemma {:induction false} LinesAreValid(lines: seq<string>)
    ensures var r := ParseLines(lines); r.Some? ==> ValidIdentity(r.value)
  {
    if lines != [] {
      SegmentsAreValid(Split(AfterLastColon(LineOf(lines)), '/'));
      LinesAreValid(lines[1..]);
    }
  }

  /** On arbitrary text, whatever is parsed makes a slash-free key tuple. */
  lemma ParsedIdentityIsSlashFree(content: string, cluster: string, timestamp: int, hostPid: int)
    ensures var r := ParseCgroup(content);
            r.Some? ==> ValidIdentity(r.value)
                        && SlashFree(Tuple(cluster, r.value.podUid, r.value.containerId, timestamp, hostPid))
  {
    LinesAreValid(Split(content, '\n'));
  }

  /** Captures of two parsed identities share an object key only if they are the same capture. */
  lemma ParsedKeysAreInjective(a: string, b: string, cluster: string, cluster': string,
                               ts: int, ts': int, pid: int, pid': int, k: Kind, l: Kind)
    requires ParseCgroup(a).Some? && ParseCgroup(b).Some?
    requires var x, y := ParseCgroup(a).value, ParseCgroup(b).value;
             Key(Tuple(cluster, x.podUid, x.containerId, ts, pid), k)
             == Key(Tuple(cluster', y.podUid, y.containerId, ts', pid'), l)
    ensures cluster == cluster' && ParseCgroup(a) == ParseCgroup(b) && ts == ts' && pid == pid' && k == l
  {
    ParsedIdentityIsSlashFree(a, cluster, ts, pid);
    ParsedIdentityIsSlashFree(b, cluster', ts', pid');
    var x, y := ParseCgroup(a).value, ParseCgroup(b).value;
    KeyInjective(Tuple(cluster, x.podUid, x.containerId, ts, pid), k,
                 Tuple(cluster', y.podUid, y.containerId, ts', pid'), l);
  }

  // ----- the two drivers' layouts -----

  datatype Qos = Guaranteed | Burstable | BestEffort

  datatype Runtime = Containerd | Docker | Crio

  function QosName(qos: Qos): string {
    match qos
    case Guaranteed => ""
    case Burstable => "burstable"
    case BestEffort => "besteffort"
  }

  function RuntimePrefix(runtime: Runtime): string {
    match runtime
    case Containerd => "cri-containerd-"
    case Docker => "docker-"
    case Crio => "crio-"
  }

  /** The slice of a QoS class; the kubelet puts guaranteed pods directly below the root. */
  function SliceName(qos: Qos): string {
    match qos
    case Guaranteed => "kubepods"
    case Burstable => "kubepods-burstable"
    case BestEffort => "kubepods-besteffort"
  }

  function CgroupfsAbove(qos: Qos): seq<string> {
    match qos
    case Guaranteed => ["", "kubepods"]
    case Burstable => ["", "kubepods", "burstable"]
    case BestEffort => ["", "kubepods", "besteffort"]
  }

  function SystemdAbove(qos: Qos): seq<string> {
    if qos == Guaranteed then ["", SliceName(Guaranteed) + ".slice"]
    else ["", SliceName(Guaranteed) + ".slice", SliceName(qos) + ".slice"]
  }

  /** The segments above the pod, the pod, the container, and the container's own sub-cgroups. */
  function CgroupfsSegments(qos: Qos, uid: string, cid: string, nested: seq<string>): seq<string> {
    CgroupfsAbove(qos) + ["pod" + uid, cid] + nested
  }

  function SystemdPod(qos: Qos, uid: string): string {
    SliceName(qos) + "-pod" + Replace(uid, '-', '_') + ".slice"
  }

  function SystemdSegments(qos: Qos, runtime: Runtime, uid: string, cid: string, nested: seq<string>): seq<string> {
    SystemdAbove(qos) + [SystemdPod(qos, uid), RuntimePrefix(runtime) + cid + ".scope"] + nested
  }

  function Path(segments: seq<string>): string {
    Join(segments, '/')
  }

  /** No dash of `a` can begin a `-pod`, whatever follows `a`. */
  ghost predicate NoDashP(a: string) {
    forall i :: 0 <= i < |a| && a[i] == '-' ==> i + 1 < |a| && a[i + 1] != 'p'
  }

  lemma SliceNamesNoDashP(qos: Qos)
    ensures NoDashP(SliceName(qos)) && SliceName(qos)[0] == 'k' && '/' !in SliceName(qos)
  {
  }

  lemma OccurrenceStarts(s: string, i: int)
    ensures OccursAt(s, "-pod", i) ==> s[i] == '-' && s[i + 1] == 'p'
  {
    if OccursAt(s, "-pod", i) {
      assert s[i] == s[i..i + 4][0] && s[i + 1] == s[i..i + 4][1];
    }
  }

  lemma PodOccursFirst(a: string, u: string)
    requires NoDashP(a)
    ensures Find(a, "-pod") == None
    ensures Find(a + "-pod" + u, "-pod") == Some(|a|)
  {
    var s := a + "-pod" + u;
    assert forall i :: 0 <= i < |a| ==> s[i] == a[i];
    assert OccursAt(s, "-pod", |a|);
    forall i: int
      ensures !OccursAt(a, "-pod", i)
      ensures i < |a| ==> !OccursAt(s, "-pod", i)
    {
      OccurrenceStarts(a, i);
      OccurrenceStarts(s, i);
    }
  }

  lemma NoPodSegment(a: string)
    requires NoDashP(a) && a != [] && a[0] != 'p' && '.' !in a
    ensures ExtractPodUid(a) == None && ExtractPodUid(a + ".slice") == None
  {
    StripSuffixAt(a, ".slice");
    SuffixChar(a, ".slice", 0);
    PrefixChar(a, "pod", 0);
    PodOccursFirst(a, "");
  }

  /** A segment the parser passes over on its way to the pod. */
  ghost predicate Skipped(s: string) {
    '/' !in s && (s == "" || ExtractPodUid(s) == None)
  }

  lemma CgroupfsAboveSkipped(qos: Qos, i: nat)
    requires i < |CgroupfsAbove(qos)|
    ensures Skipped(CgroupfsAbove(qos)[i])
  {
    PlainWords(qos);
    if i == 1 {
      NoPodSegment("kubepods");
    } else if i == 2 {
      NoPodSegment(QosName(qos));
    }
  }

  lemma PlainWords(qos: Qos)
    ensures NoDashP("kubepods") && '.' !in "kubepods" && '/' !in "kubepods"
    ensures NoDashP(QosName(qos)) && '.' !in QosName(qos) && '/' !in QosName(qos)
    ensures '.' !in SliceName(qos)
  {
  }

  lemma SystemdAboveSkipped(qos: Qos, i: nat)
    requires i < |SystemdAbove(qos)|
    ensures Skipped(SystemdAbove(qos)[i])
  {
    if i > 0 {
      var q := if i == 1 then Guaranteed else qos;
      SliceNamesNoDashP(q);
      PlainWords(q);
      NoPodSegment(SliceName(q));
      assert '/' !in ".slice";
    }
  }

  lemma CgroupfsPodParses(uid: string)
    requires IsPodUid(uid)
    ensures ExtractPodUid("pod" + uid) == Some(uid)
  {
    var s := "pod" + uid;
    SuffixChar(s, ".slice", 0);
    StripPrefixAt("pod", uid);
    assert Replace(uid, '_', '-') == uid;
  }

  lemma SystemdPodParses(qos: Qos, uid: string)
    requires IsPodUid(uid)
    ensures ExtractPodUid(SystemdPod(qos, uid)) == Some(uid) && SystemdPod(qos, uid) != ""
  {
    var a, u := SliceName(qos), Replace(uid, '-', '_');
    var s := a + "-pod" + u;
    StripSuffixAt(s, ".slice");
    SliceNamesNoDashP(qos);
    PodOccursFirst(a, u);
    PrefixChar(s, "pod", 0);
    assert s[0] == a[0];
    assert s[|a| + 4..] == u;
    assert Replace(u, '_', '-') == uid;
  }

  lemma SystemdSlashFree(qos: Qos, runtime: Runtime, uid: string, cid: string)
    requires IsPodUid(uid) && IsContainerId(cid)
    ensures '/' !in SystemdPod(qos, uid) && '/' !in RuntimePrefix(runtime) + cid + ".scope"
  {
    SliceNamesNoDashP(qos);
    var u := Replace(uid, '-', '_');
    assert '/' !in u;
    assert '/' !in "-pod" && '/' !in ".slice" && '/' !in ".scope" && '/' !in RuntimePrefix(runtime);
  }

  /** None of the prefixes' second characters is a hex digit. */
  lemma NoRuntimePrefix(cid: string)
    requires IsContainerId(cid)
    ensures StripRuntime(cid) == cid
  {
    PrefixChar(cid, "cri-containerd-", 1);
    PrefixChar(cid, "docker-", 1);
    PrefixChar(cid, "crio-", 1);
    assert !IsHexDigit('r') && !IsHexDigit('o') && IsHexDigit(cid[1]);
  }

  lemma BareContainer(cid: string)
    requires IsContainerId(cid)
    ensures ExtractContainerId(cid) == Some(cid)
  {
    SuffixChar(cid, ".scope", 0);
    NoRuntimePrefix(cid);
  }

  lemma ScopedContainer(runtime: Runtime, cid: string)
    requires IsContainerId(cid)
    ensures ExtractContainerId(RuntimePrefix(runtime) + cid + ".scope") == Some(cid)
    ensures RuntimePrefix(runtime) + cid + ".scope" != ""
  {
    var pre := RuntimePrefix(runtime);
    var s := pre + cid;
    StripSuffixAt(s, ".scope");
    StripPrefixAt(pre, cid);
    assert s[0] == pre[0] && s[3] == pre[3];
    PrefixChar(s, "cri-containerd-", 0);
    PrefixChar(s, "cri-containerd-", 3);
    PrefixChar(s, "docker-", 0);
  }

  /** Read the pod, read the container, ignore the rest. */
  lemma ParsePod(pod: string, container: string, nested: seq<string>, uid: string, cid: string)
    requires pod != "" && ExtractPodUid(pod) == Some(uid)
    requires container != "" && ExtractContainerId(container) == Some(cid)
    ensures ParseSegments([pod, container] + nested) == Some(CgroupIdentity(uid, cid))
  {
    var all := [pod, container] + nested;
    assert all[0] == pod && all[1..][0] == container;
  }

  /** Skip the segments above the pod. */
  lemma {:induction false} SkipSegments(above: seq<string>, rest: seq<string>)
    requires forall i :: 0 <= i < |above| ==> above[i] == "" || ExtractPodUid(above[i]) == None
    ensures ParseSegments(above + rest) == ParseSegments(rest)
    decreases |above|
  {
    if above == [] {
      assert above + rest == rest;
    } else {
      assert (above + rest)[0] == above[0] && (above + rest)[1..] == above[1..] + rest;
      SkipSegments(above[1..], rest);
    }
  }

  lemma ParseLayout(above: seq<string>, pod: string, container: string, nested: seq<string>, uid: string, cid: string)
    requires forall i :: 0 <= i < |above| ==> above[i] == "" || ExtractPodUid(above[i]) == None
    requires pod != "" && ExtractPodUid(pod) == Some(uid)
    requires container != "" && ExtractContainerId(container) == Some(cid)
    ensures ParseSegments(above + [pod, container] + nested) == Some(CgroupIdentity(uid, cid))
  {
    ParsePod(pod, container, nested, uid, cid);
    SkipSegments(above, [pod, container] + nested);
    Regrouped(above, [pod, container], nested);
  }

  lemma Regrouped(a: seq<string>, b: seq<string>, c: seq<string>)
    ensures a + b + c == a + (b + c)
  {
  }

  lemma CgroupfsParses(qos: Qos, uid: string, cid: string, nested: seq<string>)
    requires IsPodUid(uid) && IsContainerId(cid) && forall s :: s in nested ==> '/' !in s
    ensures ParseCgroupPath(Path(CgroupfsSegments(qos, uid, cid, nested))) == Some(CgroupIdentity(uid, cid))
  {
    var above := CgroupfsAbove(qos);
    forall i | 0 <= i < |above|
      ensures Skipped(above[i])
    {
      CgroupfsAboveSkipped(qos, i);
    }
    CgroupfsPodParses(uid);
    BareContainer(cid);
    LayoutRoundTrip(above, "pod" + uid, cid, nested, uid, cid);
  }

  lemma SystemdParses(qos: Qos, runtime: Runtime, uid: string, cid: string, nested: seq<string>)
    requires IsPodUid(uid) && IsContainerId(cid) && forall s :: s in nested ==> '/' !in s
    ensures ParseCgroupPath(Path(SystemdSegments(qos, runtime, uid, cid, nested))) == Some(CgroupIdentity(uid, cid))
  {
    var above := SystemdAbove(qos);
    forall i | 0 <= i < |above|
      ensures Skipped(above[i])
    {
      SystemdAboveSkipped(qos, i);
    }
    SystemdSlashFree(qos, runtime, uid, cid);
    SystemdPodParses(qos, uid);
    ScopedContainer(runtime, cid);
    LayoutRoundTrip(above, SystemdPod(qos, uid), RuntimePrefix(runtime) + cid + ".scope", nested, uid, cid);
  }

  /**
   For every QoS class, runtime and list of sub-cgroups, both drivers' renderings of an identity
   parse back to it: the container's own sub-cgroups, whatever their names, have no say.
   */
  lemma BothLayoutsParse(qos: Qos, runtime: Runtime, uid: string, cid: string, nested: seq<string>)
    requires IsPodUid(uid) && IsContainerId(cid) && forall s :: s in nested ==> '/' !in s
    ensures ParseCgroupPath(Path(CgroupfsSegments(qos, uid, cid, nested)))
         == ParseCgroupPath(Path(SystemdSegments(qos, runtime, uid, cid, nested)))
         == Some(CgroupIdentity(uid, cid))
  {
    CgroupfsParses(qos, uid, cid, nested);
    SystemdParses(qos, runtime, uid, cid, nested);
  }

  lemma LayoutRoundTrip(above: seq<string>, pod: string, container: string, nested: seq<string>, uid: string,
                        cid: string)
    requires forall i :: 0 <= i < |above| ==> Skipped(above[i])
    requires pod != "" && ExtractPodUid(pod) == Some(uid) && '/' !in pod
    requires container != "" && ExtractContainerId(container) == Some(cid) && '/' !in container
    requires forall s :: s in nested ==> '/' !in s
    ensures ParseCgroupPath(Path(above + [pod, container] + nested)) == Some(CgroupIdentity(uid, cid))
  {
    SplitJoin(above + [pod, container] + nested, '/');
    ParseLayout(above, pod, container, nested, uid, cid);
  }

  // ----- which names are identities -----

  /**
   The directory of a pod is recognized by the characters and the length of its UID, underscores
   standing for dashes.
   */
  lemma PodNameIff(u: string)
    requires !EndsWith(u, ".slice")
    ensures ExtractPodUid("pod" + u)
         == if 1 <= |u| <= 253 && forall c :: c in u ==> '0' <= c <= '9' || 'a' <= c <= 'f' || c == '-' || c == '_'
            then Some(Replace(u, '_', '-')) else None
  {
    NotSliced(u);
    StripPrefixAt("pod", u);
    UidIff(u);
  }

  lemma NotSliced(u: string)
    requires !EndsWith(u, ".slice")
    ensures StripSuffix("pod" + u, ".slice") == "pod" + u
  {
    var s := "pod" + u;
    if |u| < 6 {
      PodIsNoSlice(u);
    } else {
      assert s[|s| - 6..] == u[|u| - 6..];
    }
  }

  lemma PodIsNoSlice(u: string)
    requires |u| < 6
    ensures !EndsWith("pod" + u, ".slice")
  {
    var s := "pod" + u;
    if |s| >= 6 {
      SuffixChar(s, ".slice", 0);
      SuffixChar(s, ".slice", 1);
      SuffixChar(s, ".slice", 2);
      assert s[0] == 'p' && s[1] == 'o' && s[2] == 'd';
    }
  }

  lemma UidIff(u: string)
    ensures IsPodUid(Replace(u, '_', '-'))
            <==> 1 <= |u| <= 253 && forall c :: c in u ==> '0' <= c <= '9' || 'a' <= c <= 'f' || c == '-' || c == '_'
  {
    var v := Replace(u, '_', '-');
    assert forall i :: 0 <= i < |u| ==> u[i] in u;
    forall i | 0 <= i < |u|
      ensures IsUidChar(v[i]) <==> '0' <= u[i] <= '9' || 'a' <= u[i] <= 'f' || u[i] == '-' || u[i] == '_'
    {
    }
  }

  /** A name of hex digits below the pod is a container if it has at least twelve of them. */
  lemma TwelveDigits(qos: Qos, uid: string, c: string)
    requires IsPodUid(uid) && c != ""
    requires forall i :: 0 <= i < |c| ==> '0' <= c[i] <= '9' || 'a' <= c[i] <= 'f' || 'A' <= c[i] <= 'F'
    ensures ParseCgroupPath(Path(CgroupfsAbove(qos) + ["pod" + uid, c]))
         == if |c| >= 12 then Some(CgroupIdentity(uid, c)) else None
  {
    var above := CgroupfsAbove(qos);
    forall i | 0 <= i < |above|
      ensures Skipped(above[i])
    {
      CgroupfsAboveSkipped(qos, i);
    }
    CgroupfsPodParses(uid);
    HexIsContainer(c);
    assert '/' !in "pod" && '/' !in uid && '/' !in c;
    SplitJoin(above + ["pod" + uid, c], '/');
    SkipSegments(above, ["pod" + uid, c]);
    assert above + (["pod" + uid, c]) == above + ["pod" + uid, c];
    assert ["pod" + uid, c][1..] == [c];
  }

  lemma HexIsContainer(c: string)
    requires c != "" && forall i :: 0 <= i < |c| ==> '0' <= c[i] <= '9' || 'a' <= c[i] <= 'f' || 'A' <= c[i] <= 'F'
    ensures ExtractContainerId(c) == if |c| >= 12 then Some(c) else None
  {
    if |c| >= 12 {
      BareContainer(c);
    } else {
      SuffixChar(c, ".scope", 0);
      assert StripSuffix(c, ".scope") == c;
      assert |StripRuntime(c)| <= |c|;
    }
  }

  // ----- one line of the file -----

  lemma {:induction false} AfterLastColonAt(a: string, b: string)
    requires ':' !in b
    ensures AfterLastColon(b) == b
    ensures AfterLastColon(a + [':'] + b) == b
    decreases |a|
  {
    match SplitOnce(a, ':')
    case None => SplitOnceAt(a, ':', b);
    case Some((x, y)) =>
      assert a + [':'] + b == x + [':'] + (y + [':'] + b);
      SplitOnceAt(x, ':', y + [':'] + b);
      AfterLastColonAt(y, b);
  }

  /** Lines are tried in order; the first that yields an identity wins. */
  lemma FirstLine(line: string, rest: string)
    requires '\n' !in line && !EndsWith(line, "\r")
    ensures var id := ParseCgroupPath(AfterLastColon(line));
            ParseCgroup(line + ['\n'] + rest) == if id.Some? then id else ParseCgroup(rest)
  {
    SplitCons(line, '\n', rest);
    var pieces := Split(rest, '\n');
    assert ([line] + pieces)[1..] == pieces;
  }

  lemma LinesOf(pieces: seq<string>)
    requires pieces != []
    ensures var id := ParseCgroupPath(AfterLastColon(LineOf(pieces)));
            ParseLines(pieces) == if id.Some? then id else ParseLines(pieces[1..])
  {
  }

  /** A carriage return before the line feed is not part of the line. */
  lemma CarriageReturnDropped(line: string, rest: string)
    requires '\n' !in line
    ensures var id := ParseCgroupPath(AfterLastColon(line));
            ParseCgroup(line + "\r" + ['\n'] + rest) == if id.Some? then id else ParseCgroup(rest)
  {
    var first, later := line + "\r", Split(rest, '\n');
    SplitCons(first, '\n', rest);
    StripSuffixAt(line, "\r");
    var pieces := [first] + later;
    assert pieces[0] == first && pieces[1..] == later && LineOf(pieces) == line;
    LinesOf(pieces);
  }

  /** One at the end of the text is. */
  lemma LastCarriageReturnKept(line: string)
    requires '\n' !in line
    ensures ParseCgroup(line + "\r") == ParseCgroupPath(AfterLastColon(line + "\r"))
  {
    var last := line + "\r";
    assert Split(last, '\n') == [last] && LineOf([last]) == last && [last][1..] == [];
    LinesOf([last]);
  }

  /**
   A line is read from its last colon on. So the line `<hierarchy>:<controllers>:<path>` gives the
   path's identity when the path holds no colon; a colon in the path hides everything before it.
   */
  lemma LineIsReadFromLastColon(head: string, path: string, rest: string)
    requires '\n' !in head && '\n' !in path && path != "" && path[|path| - 1] != '\r'
    ensures var id := ParseCgroupPath(if ':' in path then AfterLastColon(path) else path);
            ParseCgroup(head + ":" + path + ['\n'] + rest) == if id.Some? then id else ParseCgroup(rest)
  {
    var line := head + ":" + path;
    SuffixChar(line, "\r", 0);
    FirstLine(line, rest);
    if ':' in path {
      LastColonOfTail(head, path);
    } else {
      AfterLastColonAt(head, path);
    }
  }

  lemma LastColonOfTail(head: string, path: string)
    requires ':' in path
    ensures AfterLastColon(head + ":" + path) == AfterLastColon(path)
  {
    PrefixBeforeLastColon(head + ":", path);
  }

  /** Where the last colon is. */
  lemma {:induction false} LastColon(s: string) returns (before: string)
    requires ':' in s
    ensures s == before + [':'] + AfterLastColon(s) && ':' !in AfterLastColon(s)
    decreases |s|
  {
    var (x, y) := SplitOnce(s, ':').value;
    if ':' in y {
      var z := LastColon(y);
      before := x + [':'] + z;
      LastPart(x, y);
      Regroup(x, z, AfterLastColon(y));
    } else {
      before := x;
      AfterLastColonAt(x, y);
    }
  }

  lemma LastPart(x: string, y: string)
    requires ':' !in x
    ensures AfterLastColon(x + [':'] + y) == AfterLastColon(y)
  {
    SplitCons(x, ':', y);
  }

  lemma Regroup(x: string, y: string, z: string)
    ensures x + [':'] + (y + [':'] + z) == (x + [':'] + y) + [':'] + z
  {
  }

  lemma PrefixBeforeLastColon(a: string, b: string)
    requires ':' in b
    ensures AfterLastColon(a + b) == AfterLastColon(b)
  {
    var x := LastColon(b);
    var y := AfterLastColon(b);
    assert a + b == (a + x) + [':'] + y;
    AfterLastColonAt(a + x, y);
  }

  /** Free of the characters that structure the file. */
  predicate Plain(s: string) {
    ':' !in s && '\n' !in s && '\r' !in s
  }

  lemma PlainNames(qos: Qos)
    ensures Plain(SliceName(qos)) && Plain(QosName(qos))
  {
  }

  lemma PlainRuntime(runtime: Runtime)
    ensures Plain(RuntimePrefix(runtime))
  {
  }

  lemma PlainFixedParts(qos: Qos, runtime: Runtime)
    ensures Plain(SliceName(qos)) && Plain(RuntimePrefix(runtime)) && Plain(QosName(qos))
    ensures Plain("kubepods") && Plain("pod") && Plain("-pod") && Plain(".slice") && Plain(".scope")
  {
    PlainNames(qos);
    PlainNames(Guaranteed);
    PlainRuntime(runtime);
  }

  lemma PlainConcat(a: string, b: string)
    requires Plain(a) && Plain(b)
    ensures Plain(a + b)
  {
  }

  lemma PlainSegments(qos: Qos, runtime: Runtime, uid: string, cid: string)
    requires IsPodUid(uid) && IsContainerId(cid)
    ensures Plain("pod" + uid) && Plain(cid) && Plain(SystemdPod(qos, uid))
            && Plain(RuntimePrefix(runtime) + cid + ".scope")
  {
    PlainFixedParts(qos, runtime);
    var u := Replace(uid, '-', '_');
    assert Plain(u) && Plain(uid) && Plain(cid);
    PlainConcat(SliceName(qos), "-pod");
    PlainConcat(SliceName(qos) + "-pod", u);
    PlainConcat(SliceName(qos) + "-pod" + u, ".slice");
    PlainConcat(RuntimePrefix(runtime), cid);
    PlainConcat(RuntimePrefix(runtime) + cid, ".scope");
    PlainConcat("pod", uid);
  }

  lemma PlainAbove(qos: Qos)
    ensures forall s :: s in CgroupfsAbove(qos) ==> Plain(s)
    ensures forall s :: s in SystemdAbove(qos) ==> Plain(s)
  {
    PlainFixedParts(qos, Docker);
    PlainFixedParts(Guaranteed, Docker);
    PlainConcat(SliceName(qos), ".slice");
    PlainConcat(SliceName(Guaranteed), ".slice");
  }

  // ----- what the container's own sub-cgroups can do to a line -----

  /** The segments that are read when some segment holds a colon: those after the last one. */
  function ReadSegments(segments: seq<string>): Option<seq<string>> {
    if segments == [] then None
    else
      var later := ReadSegments(segments[1..]);
      if later.Some? then later
      else if ':' in segments[0] then Some([AfterLastColon(segments[0])] + segments[1..])
      else None
  }

  /** Neither a separator of segments nor one of lines. */
  predicate Segments(segments: seq<string>) {
    forall s :: s in segments ==> '/' !in s && '\n' !in s
  }

  lemma ColonInFirst(first: string, rest: seq<string>)
    requires ':' in first && rest != [] && ':' !in Path(rest)
    ensures AfterLastColon(Path([first] + rest)) == Path([AfterLastColon(first)] + rest)
  {
    var x := LastColon(first);
    var y, tail := AfterLastColon(first), ['/'] + Path(rest);
    assert ([first] + rest)[1..] == rest && ([y] + rest)[1..] == rest;
    assert Path([first] + rest) == x + [':'] + (y + tail);
    assert Path([y] + rest) == y + tail;
    AfterLastColonAt(x, y + tail);
  }

  lemma ColonInRest(first: string, rest: seq<string>)
    requires rest != [] && ':' in Path(rest)
    ensures AfterLastColon(Path([first] + rest)) == AfterLastColon(Path(rest))
  {
    assert ([first] + rest)[1..] == rest;
    assert Path([first] + rest) == (first + "/") + Path(rest);
    PrefixBeforeLastColon(first + "/", Path(rest));
  }

  /** `ReadSegments` is what `AfterLastColon` leaves of a path. */
  lemma {:induction false} PathAfterLastColon(segments: seq<string>)
    requires segments != []
    ensures var r := ReadSegments(segments);
            && (r.Some? <==> ':' in Path(segments))
            && (r.Some? ==> r.value != [] && Path(r.value) == AfterLastColon(Path(segments)))
  {
    var first, rest := segments[0], segments[1..];
    assert segments == [first] + rest;
    if rest == [] {
      assert [AfterLastColon(first)] + rest == [AfterLastColon(first)];
    } else {
      PathAfterLastColon(rest);
      assert ':' in Path(segments) <==> ':' in first || ':' in Path(rest);
      if ReadSegments(rest).Some? {
        ColonInRest(first, rest);
      } else if ':' in first {
        ColonInFirst(first, rest);
      }
    }
  }

  lemma SuffixIsSlashFree(s: string)
    requires '/' !in s
    ensures '/' !in AfterLastColon(s)
  {
    if ':' in s {
      var x := LastColon(s);
    } else {
      AfterLastColonAt("", s);
    }
  }

  lemma {:induction false} ReadSegmentsSplit(segments: seq<string>)
    requires Segments(segments)
    ensures var r := ReadSegments(segments);
            r.Some? ==> r.value != [] && forall s :: s in r.value ==> '/' !in s
  {
    if segments != [] {
      assert Segments(segments[1..]);
      ReadSegmentsSplit(segments[1..]);
      SuffixIsSlashFree(segments[0]);
    }
  }

  /** Segments without a colon in front change nothing. */
  lemma {:induction false} ReadSegmentsSkips(before: seq<string>, nested: seq<string>)
    requires forall s :: s in before ==> ':' !in s
    ensures ReadSegments(before + nested) == ReadSegments(nested)
    decreases |before|
  {
    if before == [] {
      assert before + nested == nested;
    } else {
      ReadSegmentsSkips(before[1..], nested);
      assert (before + nested)[1..] == before[1..] + nested && (before + nested)[0] == before[0];
    }
  }

  /** A file ends its lines with a line feed alone, so the path must not end in a carriage return. */
  predicate NoTrailingCr(nested: seq<string>) {
    nested != [] ==> !EndsWith(nested[|nested| - 1], "\r")
  }

  lemma {:induction false} PathEnd(segments: seq<string>)
    requires |segments| > 1
    ensures var path, last := Path(segments), segments[|segments| - 1];
            path != "" && path[|path| - 1] == if last == "" then '/' else last[|last| - 1]
  {
    if |segments| > 2 {
      PathEnd(segments[1..]);
    } else {
      assert Path(segments[1..]) == segments[1];
    }
  }

  /** The part of the path above the sub-cgroups is free of colons and line feeds. */
  ghost predicate PlainParts(before: seq<string>) {
    |before| > 1 && before[|before| - 1] != "" && forall s :: s in before ==> Plain(s) && '/' !in s
  }

  /** What the parser makes of a line whose path is `before` (without colons) and then `nested`. */
  lemma LineYields(head: string, before: seq<string>, nested: seq<string>, rest: string)
    requires '\n' !in head && PlainParts(before)
    requires Segments(nested) && NoTrailingCr(nested)
    ensures var id := ParseSegments(match ReadSegments(nested) case Some(read) => read case None => before + nested);
            ParseCgroup(head + ":" + Path(before + nested) + ['\n'] + rest)
            == if id.Some? then id else ParseCgroup(rest)
  {
    var segments := before + nested;
    var path := Path(segments);
    assert path != "" && '\n' !in path && path[|path| - 1] != '\r' by {
      JoinKeepsOut(segments, '/', '\n');
      PathEnd(segments);
      LastSegment(before, nested);
    }
    LineIsReadFromLastColon(head, path, rest);
    PathAfterLastColon(segments);
    ReadSegmentsSkips(before, nested);
    match ReadSegments(nested)
    case Some(tail) =>
      ReadSegmentsSplit(nested);
      SplitJoin(tail, '/');
    case None => SplitJoin(segments, '/');
  }

  lemma LastSegment(before: seq<string>, nested: seq<string>)
    requires before != [] && before[|before| - 1] != "" && Plain(before[|before| - 1]) && NoTrailingCr(nested)
    ensures var segments := before + nested;
            var last := segments[|segments| - 1];
            last != "" ==> last[|last| - 1] != '\r'
  {
    var segments := before + nested;
    var last := segments[|segments| - 1];
    if nested == [] {
      assert last == before[|before| - 1];
    }
  }

  lemma NoContentNoIdentity()
    ensures ParseCgroup("") == None
  {
    assert Split("", '\n') == [""] && Split("", ':') == [""] && Split("", '/') == [""];
    assert [""][1..] == [];
    assert ParseSegments([""]) == None;
  }

  /** One of the two drivers' layouts. */
  datatype Driver = Cgroupfs | Systemd(runtime: Runtime)

  /** The path of a container's sub-cgroup, by driver. */
  function Layout(driver: Driver, qos: Qos, uid: string, cid: string, nested: seq<string>): seq<string> {
    match driver
    case Cgroupfs => CgroupfsSegments(qos, uid, cid, nested)
    case Systemd(runtime) => SystemdSegments(qos, runtime, uid, cid, nested)
  }

  lemma AddParts(above: seq<string>, pod: string, container: string)
    requires forall s :: s in above ==> Plain(s) && '/' !in s
    requires Plain(pod) && '/' !in pod && Plain(container) && '/' !in container && container != ""
    ensures PlainParts(above + [pod, container])
  {
    var before := above + [pod, container];
    forall s | s in before
      ensures Plain(s) && '/' !in s
    {
      assert s in above || s == pod || s == container;
    }
  }

  lemma CgroupfsParts(qos: Qos, uid: string, cid: string)
    requires IsPodUid(uid) && IsContainerId(cid)
    ensures PlainParts(CgroupfsAbove(qos) + ["pod" + uid, cid])
  {
    PlainAbove(qos);
    PlainSegments(qos, Docker, uid, cid);
    forall i | 0 <= i < |CgroupfsAbove(qos)|
      ensures Skipped(CgroupfsAbove(qos)[i])
    {
      CgroupfsAboveSkipped(qos, i);
    }
    AddParts(CgroupfsAbove(qos), "pod" + uid, cid);
  }

  lemma SystemdParts(qos: Qos, runtime: Runtime, uid: string, cid: string)
    requires IsPodUid(uid) && IsContainerId(cid)
    ensures PlainParts(SystemdAbove(qos) + [SystemdPod(qos, uid), RuntimePrefix(runtime) + cid + ".scope"])
  {
    PlainAbove(qos);
    PlainSegments(qos, runtime, uid, cid);
    SystemdSlashFree(qos, runtime, uid, cid);
    forall i | 0 <= i < |SystemdAbove(qos)|
      ensures Skipped(SystemdAbove(qos)[i])
    {
      SystemdAboveSkipped(qos, i);
    }
    AddParts(SystemdAbove(qos), SystemdPod(qos, uid), RuntimePrefix(runtime) + cid + ".scope");
  }

  lemma LayoutParts(driver: Driver, qos: Qos, uid: string, cid: string, nested: seq<string>)
    returns (before: seq<string>)
    requires IsPodUid(uid) && IsContainerId(cid)
    ensures Layout(driver, qos, uid, cid, nested) == before + nested && PlainParts(before)
  {
    match driver
    case Cgroupfs =>
      before := CgroupfsAbove(qos) + ["pod" + uid, cid];
      CgroupfsParts(qos, uid, cid);
    case Systemd(runtime) =>
      before := SystemdAbove(qos) + [SystemdPod(qos, uid), RuntimePrefix(runtime) + cid + ".scope"];
      SystemdParts(qos, runtime, uid, cid);
  }

  /**
   What a file yields, for every driver, QoS class, runtime, identity and list of sub-cgroups: the
   true identity when no sub-cgroup's name holds a colon; otherwise whatever the segments after the
   last colon spell, and if they spell nothing, whatever the rest of the file yields. So a file of
   one line yields the true identity if and only if no sub-cgroup's name holds a colon, or the
   segments after the last one spell that same identity.
   */
  lemma SubCgroupsDecide(head: string, driver: Driver, qos: Qos, uid: string, cid: string, nested: seq<string>,
                         rest: string)
    requires IsPodUid(uid) && IsContainerId(cid) && '\n' !in head
    requires Segments(nested) && NoTrailingCr(nested)
    ensures var truth, path := CgroupIdentity(uid, cid), Path(Layout(driver, qos, uid, cid, nested));
            && ParseCgroupPath(path) == Some(truth)
            && ParseCgroup(head + ":" + path + ['\n'] + rest)
               == (match ReadSegments(nested)
                   case None => Some(truth)
                   case Some(read) => if ParseSegments(read).Some? then ParseSegments(read) else ParseCgroup(rest))
            && (rest == "" ==>
                  (ParseCgroup(head + ":" + path + ['\n'] + rest) == Some(truth)
                   <==> ReadSegments(nested).None? || ParseSegments(ReadSegments(nested).value) == Some(truth)))
  {
    var before := LayoutParts(driver, qos, uid, cid, nested);
    LineYields(head, before, nested, rest);
    NoContentNoIdentity();
    assert ParseSegments(before + nested) == Some(CgroupIdentity(uid, cid))
        && ParseCgroupPath(Path(before + nested)) == Some(CgroupIdentity(uid, cid)) by {
      BothLayoutsParse(qos, if driver.Systemd? then driver.runtime else Docker, uid, cid, nested);
      SplitJoin(before + nested, '/');
    }
  }

  lemma {:induction false} NoColonNothingRead(segments: seq<string>)
    requires forall s :: s in segments ==> ':' !in s
    ensures ReadSegments(segments) == None
  {
    if segments != [] {
      NoColonNothingRead(segments[1..]);
    }
  }

  /** A file that starts with a line of either layout parses to its identity when no sub-cgroup's name holds a colon. */
  lemma LinesParse(head: string, driver: Driver, qos: Qos, uid: string, cid: string, nested: seq<string>, rest: string)
    requires IsPodUid(uid) && IsContainerId(cid) && '\n' !in head
    requires Segments(nested) && NoTrailingCr(nested) && forall s :: s in nested ==> ':' !in s
    ensures ParseCgroup(head + ":" + Path(Layout(driver, qos, uid, cid, nested)) + ['\n'] + rest)
         == Some(CgroupIdentity(uid, cid))
  {
    NoColonNothingRead(nested);
    SubCgroupsDecide(head, driver, qos, uid, cid, nested, rest);
  }

  /** The segments a forged sub-cgroup path leaves to be read. */
  lemma ForgedSegments(name: string, uid: string, cid: string)
    requires IsPodUid(uid) && IsContainerId(cid)
    ensures ReadSegments([name + ":", "pod" + uid, cid]) == Some(["", "pod" + uid, cid])
  {
    var nested, forged := [name + ":", "pod" + uid, cid], ["pod" + uid, cid];
    PlainSegments(Guaranteed, Docker, uid, cid);
    assert nested[1..] == forged;
    NoColonNothingRead(forged);
    AfterLastColonAt(name, "");
    assert name + [':'] + "" == name + ":" == nested[0];
    assert [""] + forged == ["", "pod" + uid, cid];
  }

  lemma ForgedIdentity(uid: string, cid: string)
    requires IsPodUid(uid) && IsContainerId(cid)
    ensures ParseSegments(["", "pod" + uid, cid]) == Some(CgroupIdentity(uid, cid))
  {
    CgroupfsPodParses(uid);
    BareContainer(cid);
    ParseLayout([""], "pod" + uid, cid, [], uid, cid);
    assert [""] + ["pod" + uid, cid] + [] == ["", "pod" + uid, cid];
  }

  lemma ForgedIsOneLine(name: string, uid: string, cid: string)
    requires IsPodUid(uid) && IsContainerId(cid) && '/' !in name && '\n' !in name
    ensures Segments([name + ":", "pod" + uid, cid]) && NoTrailingCr([name + ":", "pod" + uid, cid])
  {
    assert '/' !in "pod" && '\n' !in "pod" && '/' !in uid && '/' !in cid;
    SuffixChar(cid, "\r", 0);
  }

  /**
   A container with a writable cgroupfs can pass for any other: below a sub-cgroup whose name ends in
   a colon it spells the path of its choice, and the file yields that identity instead of its own.
   */
  lemma ColonForgesIdentity(head: string, driver: Driver, qos: Qos, uid: string, cid: string, name: string,
                            uid': string, cid': string, rest: string)
    requires IsPodUid(uid) && IsContainerId(cid) && IsPodUid(uid') && IsContainerId(cid') && '\n' !in head
    requires '/' !in name && '\n' !in name
    ensures var path := Path(Layout(driver, qos, uid, cid, [name + ":", "pod" + uid', cid']));
            && ParseCgroupPath(path) == Some(CgroupIdentity(uid, cid))
            && ParseCgroup(head + ":" + path + ['\n'] + rest) == Some(CgroupIdentity(uid', cid'))
  {
    ForgedIsOneLine(name, uid', cid');
    ForgedSegments(name, uid', cid');
    ForgedIdentity(uid', cid');
    SubCgroupsDecide(head, driver, qos, uid, cid, [name + ":", "pod" + uid', cid'], rest);
  }

  lemma HiddenRead()
    ensures ReadSegments(["a:b"]) == Some(["b"])
  {
    AfterLastColonAt("a", "b");
    assert "a" + [':'] + "b" == "a:b";
    assert ["a:b"][1..] == [] && ["b"] + [] == ["b"];
  }

  lemma HiddenSegments()
    ensures Segments(["a:b"]) && NoTrailingCr(["a:b"])
    ensures ReadSegments(["a:b"]) == Some(["b"]) && ParseSegments(["b"]) == None
  {
    SuffixChar("a:b", "\r", 0);
    HiddenRead();
    NoPodSegment("b");
    assert ["b"][1..] == [];
  }

  /** Or it hides: below a name with a colon, a file of one line yields no identity at all. */
  lemma ColonHidesIdentity(head: string, driver: Driver, qos: Qos, uid: string, cid: string)
    requires IsPodUid(uid) && IsContainerId(cid) && '\n' !in head
    ensures var path := Path(Layout(driver, qos, uid, cid, ["a:b"]));
            && ParseCgroupPath(path) == Some(CgroupIdentity(uid, cid))
            && ParseCgroup(head + ":" + path + ['\n'] + "") == None
  {
    HiddenSegments();
    NoContentNoIdentity();
    SubCgroupsDecide(head, driver, qos, uid, cid, ["a:b"], "");
  }
}
