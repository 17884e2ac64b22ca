/** Object keys and Event names: the strings by which concurrent captures avoid each other. */
module Keys {
  import opened Text

  // ----- decimal rendering -----

  function Digit(d: nat): char
    requires d < 10
  {
    '0' + d as char
  }

  predicate IsDigit(c: char) {
    '0' <= c <= '9'
  }

  function Digits(n: nat): (s: string)
    ensures s != [] && forall i :: 0 <= i < |s| ==> IsDigit(s[i])
  {
    if n < 10 then [Digit(n)] else Digits(n / 10) + [Digit(n % 10)]
  }

  /** How an integer is formatted. */
  function Decimal(n: int): (s: string)
    ensures s != [] && IsDigit(s[|s| - 1])
    ensures forall i :: 0 <= i < |s| ==> IsDigit(s[i]) || s[i] == '-'
  {
    if n < 0 then "-" + Digits(-n) else Digits(n)
  }

  function Parsed(s: string): nat {
    if s == [] then 0
    else
      var c := s[|s| - 1];
      10 * Parsed(s[..|s| - 1]) + if IsDigit(c) then (c - '0') as nat else 0
  }

  lemma {:induction false} ParsedDigits(n: nat)
    ensures Parsed(Digits(n)) == n
  {
    if n >= 10 {
      ParsedDigits(n / 10);
      assert Digits(n)[..|Digits(n)| - 1] == Digits(n / 10);
    }
  }

  lemma DigitsInjective(m: nat, n: nat)
    requires Digits(m) == Digits(n)
    ensures m == n
  {
    ParsedDigits(m);
    ParsedDigits(n);
  }

  /**
   `x` followed by a dash and a number can be read back, even when the number is negative,
   as long as `x` does not itself end in a dash.
   */
  lemma DashNumberInjective(x: string, m: int, y: string, n: int)
    requires x != [] && y != [] && x[|x| - 1] != '-' && y[|y| - 1] != '-'
    requires x + "-" + Decimal(m) == y + "-" + Decimal(n)
    ensures x == y && m == n
  {
    var a, b := if m < 0 then x + "-" else x, if n < 0 then y + "-" else y;
    var p, q := Digits(if m < 0 then -m else m), Digits(if n < 0 then -n else n);
    assert x + "-" + Decimal(m) == a + ['-'] + p;
    assert y + "-" + Decimal(n) == b + ['-'] + q;
    LastCut(a, p, b, q, '-');
    DigitsInjective(if m < 0 then -m else m, if n < 0 then -n else n);
    assert (m < 0) == (a[|a| - 1] == '-') && (n < 0) == (b[|b| - 1] == '-');
    assert x == if m < 0 then a[..|a| - 1] else a;
    assert y == if n < 0 then b[..|b| - 1] else b;
  }

  // ----- object keys -----

  datatype Kind = Core | ProcSnapshot | ManifestJson

  /** What identifies one capture. */
  datatype Tuple = Tuple(cluster: string, podUid: string, containerId: string, timestamp: int, hostPid: int)

  function Prefix(t: Tuple): string {
    t.cluster + "/" + t.podUid + "/" + t.containerId + "/" + (Decimal(t.timestamp) + "-" + Decimal(t.hostPid))
  }

  function Suffix(kind: Kind): string {
    match kind
    case Core => "-core.zst"
    case ProcSnapshot => "-procsnapshot.tar"
    case ManifestJson => "-manifest.json"
  }

  function Key(t: Tuple, kind: Kind): string {
    Prefix(t) + Suffix(kind)
  }

  ghost predicate SlashFree(t: Tuple) {
    '/' !in t.podUid && '/' !in t.containerId
  }

  lemma PrefixInjective(t: Tuple, u: Tuple)
    requires SlashFree(t) && SlashFree(u) && Prefix(t) == Prefix(u)
    ensures t == u
  {
    var a, b := Decimal(t.timestamp) + "-" + Decimal(t.hostPid), Decimal(u.timestamp) + "-" + Decimal(u.hostPid);
    var t1, u1 := t.cluster + "/" + t.podUid, u.cluster + "/" + u.podUid;
    LastCut(t1 + "/" + t.containerId, a, u1 + "/" + u.containerId, b, '/');
    LastCut(t1, t.containerId, u1, u.containerId, '/');
    LastCut(t.cluster, t.podUid, u.cluster, u.podUid, '/');
    DashNumberInjective(Decimal(t.timestamp), t.hostPid, Decimal(u.timestamp), u.hostPid);
    DashNumberInjective("x", t.timestamp, "x", u.timestamp);
  }

  /** No two objects, of one capture or of two, share a key. */
  lemma KeyInjective(t: Tuple, k: Kind, u: Tuple, l: Kind)
    requires SlashFree(t) && SlashFree(u) && Key(t, k) == Key(u, l)
    ensures t == u && k == l
  {
    var s := Key(t, k);
    assert s[|s| - 1] == Suffix(k)[|Suffix(k)| - 1] == Suffix(l)[|Suffix(l)| - 1];
    assert k == l;
    assert Prefix(t) == s[..|s| - |Suffix(k)|] == Prefix(u);
    PrefixInjective(t, u);
  }

  /** A decimal reads back as the number, sign and digits in order. */
  lemma DecimalReads(n: int)
    ensures n >= 0 ==> Parsed(Decimal(n)) == n
    ensures n < 0 ==> Decimal(n)[0] == '-' && Parsed(Decimal(n)[1..]) == -n
  {
    ParsedDigits(if n < 0 then -n else n);
    assert n < 0 ==> Decimal(n)[1..] == Digits(-n);
  }

  lemma NumbersSlashFree(m: int, n: int)
    ensures '/' !in Decimal(m) + "-" + Decimal(n)
  {
  }

  /** The file name of each kind of object, after the timestamp and the pid. */
  function FileName(t: Tuple, kind: Kind): string {
    Decimal(t.timestamp) + "-" + Decimal(t.hostPid)
    + (match kind
       case Core => "-core.zst"
       case ProcSnapshot => "-procsnapshot.tar"
       case ManifestJson => "-manifest.json")
  }

  /** Cut at its slashes, a key is the cluster, the pod, the container and a file name. */
  lemma KeyReads(t: Tuple, kind: Kind)
    requires SlashFree(t) && '/' !in t.cluster
    ensures Split(Key(t, kind), '/') == [t.cluster, t.podUid, t.containerId, FileName(t, kind)]
  {
    var parts := [t.cluster, t.podUid, t.containerId, FileName(t, kind)];
    NumbersSlashFree(t.timestamp, t.hostPid);
    assert '/' !in FileName(t, kind);
    KeyJoins(t, kind);
    SplitJoin(parts, '/');
  }

  lemma JoinFour(a: string, b: string, c: string, d: string)
    ensures Join([a, b, c, d], '/') == a + "/" + b + "/" + c + "/" + d
  {
    assert [c, d][1..] == [d] && [b, c, d][1..] == [c, d] && [a, b, c, d][1..] == [b, c, d];
    assert Join([c, d], '/') == c + "/" + d;
    assert Join([b, c, d], '/') == b + "/" + c + "/" + d;
  }

  lemma Reassociate(a: string, b: string, c: string)
    ensures (a + b) + c == a + (b + c)
  {
  }

  lemma KeyJoins(t: Tuple, kind: Kind)
    ensures Key(t, kind) == Join([t.cluster, t.podUid, t.containerId, FileName(t, kind)], '/')
  {
    var name := Decimal(t.timestamp) + "-" + Decimal(t.hostPid);
    JoinFour(t.cluster, t.podUid, t.containerId, FileName(t, kind));
    Reassociate(t.cluster + "/" + t.podUid + "/" + t.containerId + "/", name, Suffix(kind));
  }

  /** The keys of one capture differ whatever its identity looks like. */
  lemma OwnKeysDiffer(t: Tuple, k: Kind, l: Kind)
    requires k != l
    ensures Key(t, k) != Key(t, l)
  {
    assert |Suffix(k)| != |Suffix(l)|;
  }

  /** The precondition matters: with a slash in the pod UID two captures can collide. */
  lemma SlashesCollide()
    ensures Key(Tuple("c", "a/b", "d", 0, 0), Core) == Key(Tuple("c/a", "b", "d", 0, 0), Core)
  {
    assert "c" + "/" + "a/b" == "c/a" + "/" + "b";
  }

  // ----- Event names -----

  datatype Reason = CoreDumped | CoreDumpSuppressed | CoreDiscardedNoStore

  function Slug(reason: Reason): string {
    match reason
    case CoreDumped => "coredumped"
    case CoreDumpSuppressed => "coredumpsuppressed"
    case CoreDiscardedNoStore => "corediscardednostore"
  }

  function EventName(podUid: string, reason: Reason, timestamp: int): string {
    "coredrop-" + podUid + "-" + Slug(reason) + "-" + Decimal(timestamp)
  }

  /** Two Events share a name only if they share the pod, the reason and the timestamp. */
  lemma EventNameInjective(p: string, r: Reason, t: int, q: string, s: Reason, u: int)
    requires EventName(p, r, t) == EventName(q, s, u)
    ensures p == q && r == s && t == u
  {
    var x, y := "coredrop-" + p + "-" + Slug(r), "coredrop-" + q + "-" + Slug(s);
    assert x[|x| - 1] == Slug(r)[|Slug(r)| - 1] && y[|y| - 1] == Slug(s)[|Slug(s)| - 1];
    DashNumberInjective(x, t, y, u);
    LastCut("coredrop-" + p, Slug(r), "coredrop-" + q, Slug(s), '-');
    assert p == ("coredrop-" + p)[9..] && q == ("coredrop-" + q)[9..];
    assert |Slug(r)| == |Slug(s)|;
  }
}
