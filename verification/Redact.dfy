/** Redaction of the NUL-framed `environ` and `cmdline` blobs. */
module Redact {
  import opened Text

  const REDACTED := "<redacted>"
  const MIN_HEURISTIC_LEN: nat := 20

  /** `highEntropy` stands for the floating-point test `shannon_entropy(value) >= 3.5`. */
  datatype Redactor = Redactor(enabled: bool, keywords: seq<string>, highEntropy: string -> bool)

  // ----- UTF-8 -----

  /** What the next byte must be. */
  datatype Utf8 = Boundary | Need(more: nat) | AfterE0 | AfterED | AfterF0 | AfterF4 | Invalid

  /** The well-formed byte sequences of the Unicode Standard, table 3-7. */
  function Utf8Step(q: Utf8, b: int): Utf8 {
    match q
    case Boundary =>
      if 0 <= b < 0x80 then Boundary
      else if 0xC2 <= b <= 0xDF then Need(1)
      else if b == 0xE0 then AfterE0
      else if b == 0xED then AfterED
      else if 0xE1 <= b <= 0xEF then Need(2)
      else if b == 0xF0 then AfterF0
      else if 0xF1 <= b <= 0xF3 then Need(3)
      else if b == 0xF4 then AfterF4
      else Invalid
    case Need(n) => if 0x80 <= b <= 0xBF && n > 0 then (if n == 1 then Boundary else Need(n - 1)) else Invalid
    case AfterE0 => if 0xA0 <= b <= 0xBF then Need(1) else Invalid
    case AfterED => if 0x80 <= b <= 0x9F then Need(1) else Invalid
    case AfterF0 => if 0x90 <= b <= 0xBF then Need(2) else Invalid
    case AfterF4 => if 0x80 <= b <= 0x8F then Need(2) else Invalid
    case Invalid => Invalid
  }

  function Utf8Run(s: string): Utf8 {
    if s == [] then Boundary else Utf8Step(Utf8Run(s[..|s| - 1]), s[|s| - 1] as int)
  }

  predicate ValidUtf8(s: string) {
    Utf8Run(s) == Boundary
  }

  // ----- what counts as secret -----

  function ToUpper(s: string): string {
    seq(|s|, i requires 0 <= i < |s| => if 'a' <= s[i] <= 'z' then s[i] - 'a' + 'A' else s[i])
  }

  predicate KeyIsSecret(r: Redactor, key: string) {
    exists i :: 0 <= i < |r.keywords| && Find(ToUpper(key), r.keywords[i]).Some?
  }

  predicate IsBase64Url(c: char) {
    'a' <= c <= 'z' || 'A' <= c <= 'Z' || '0' <= c <= '9' || c == '-' || c == '_' || c == '+' || c == '='
  }

  predicate IsTokenShaped(s: string) {
    forall i :: 0 <= i < |s| ==> IsBase64Url(s[i])
  }

  predicate IsJwt(value: string) {
    var parts := Split(value, '.');
    |value| >= MIN_HEURISTIC_LEN && |parts| == 3
    && forall i :: 0 <= i < |parts| ==> |parts[i]| >= 4 && IsTokenShaped(parts[i])
  }

  predicate LooksSecret(r: Redactor, value: string) {
    || StartsWith(value, "-----BEGIN")
    || IsJwt(value)
    || (|value| >= MIN_HEURISTIC_LEN && IsTokenShaped(value) && r.highEntropy(value))
  }

  // ----- rewriting -----

  /** `scheme`, authority and the rest of a `scheme://...` value. */
  function UrlParts(value: string): Option<(string, string, string)> {
    match Find(value, "://")
    case None => None
    case Some(i) =>
      var rest := value[i + 3..];
      var end := FindAny(rest, {'/', '?', '#'});
      Some((value[..i], rest[..end], rest[end..]))
  }

  /** The authority rewritten, if it carries a password or a lone token. */
  function RedactAuthority(r: Redactor, authority: string): Option<string> {
    match SplitOnce(authority, '@')
    case None => None
    case Some((userinfo, host)) =>
      match SplitOnce(userinfo, ':')
      case Some((user, password)) =>
        if password != "" then Some(user + ":" + REDACTED + "@" + host) else None
      case None =>
        if LooksSecret(r, userinfo) then Some(REDACTED + "@" + host) else None
  }

  predicate PairIsSecret(r: Redactor, pair: string) {
    match SplitOnce(pair, '=')
    case None => false
    case Some((key, value)) => value != "" && KeyIsSecret(r, key)
  }

  function RedactPair(r: Redactor, pair: string): string {
    if PairIsSecret(r, pair) then SplitOnce(pair, '=').value.0 + "=" + REDACTED else pair
  }

  function RedactPairs(r: Redactor, pairs: seq<string>): seq<string> {
    seq(|pairs|, i requires 0 <= i < |pairs| => RedactPair(r, pairs[i]))
  }

  /** Path, query and fragment; the fragment keeps its `#`. */
  function TailParts(tail: string): Option<(string, string, string)> {
    match SplitOnce(tail, '?')
    case None => None
    case Some((path, after)) =>
      var end := FindAny(after, {'#'});
      Some((path, after[..end], after[end..]))
  }

  function RedactQuery(r: Redactor, tail: string): Option<string> {
    match TailParts(tail)
    case None => None
    case Some((path, query, fragment)) =>
      var pairs := Split(query, '&');
      if exists i :: 0 <= i < |pairs| && PairIsSecret(r, pairs[i])
      then Some(path + "?" + Join(RedactPairs(r, pairs), '&') + fragment)
      else None
  }

  function OrElse(o: Option<string>, s: string): string {
    if o.Some? then o.value else s
  }

  function RedactUrl(r: Redactor, value: string): Option<string> {
    match UrlParts(value)
    case None => None
    case Some((scheme, authority, tail)) =>
      var a, t := RedactAuthority(r, authority), RedactQuery(r, tail);
      if a.None? && t.None? then None
      else Some(scheme + "://" + OrElse(a, authority) + OrElse(t, tail))
  }

  function RedactEntry(r: Redactor, entry: string): string {
    if !ValidUtf8(entry) then entry
    else match SplitOnce(entry, '=')
      case None => entry
      case Some((key, value)) =>
        if KeyIsSecret(r, key) || LooksSecret(r, value) then key + "=" + REDACTED
        else match RedactUrl(r, value)
          case Some(rewritten) => key + "=" + rewritten
          case None => entry
  }

  predicate IsSecretFlag(r: Redactor, arg: string) {
    ValidUtf8(arg) && StartsWith(arg, "-") && '=' !in arg && KeyIsSecret(r, arg)
  }

  // ----- blobs -----

  function NonEmpty(parts: seq<string>): seq<string> {
    if parts == [] then []
    else
      var n := |parts| - 1;
      if parts[n] == "" then NonEmpty(parts[..n]) else NonEmpty(parts[..n]) + [parts[n]]
  }

  /** The entries of a blob. */
  function Entries(raw: string): seq<string> {
    NonEmpty(Split(raw, '\0'))
  }

  function Frame(entries: seq<string>): string {
    if entries == [] then []
    else Frame(entries[..|entries| - 1]) + entries[|entries| - 1] + "\0"
  }

  function RedactEntries(r: Redactor, entries: seq<string>): seq<string> {
    if entries == [] then []
    else RedactEntries(r, entries[..|entries| - 1]) + [RedactEntry(r, entries[|entries| - 1])]
  }

  /** Whether the argument after `args` is the value of a secret flag. */
  predicate RedactNext(r: Redactor, args: seq<string>) {
    args != [] && (var n := |args| - 1; !RedactNext(r, args[..n]) && IsSecretFlag(r, args[n]))
  }

  function RedactArgs(r: Redactor, args: seq<string>): seq<string> {
    if args == [] then []
    else
      var n := |args| - 1;
      RedactArgs(r, args[..n]) + [if RedactNext(r, args[..n]) then REDACTED else RedactEntry(r, args[n])]
  }

  lemma FrameAppend(entries: seq<string>, e: string)
    ensures Frame(entries + [e]) == Frame(entries) + e + "\0"
  {
    assert (entries + [e])[..|entries|] == entries;
  }

  lemma EntriesAppend(r: Redactor, entries: seq<string>, e: string)
    ensures RedactEntries(r, entries + [e]) == RedactEntries(r, entries) + [RedactEntry(r, e)]
  {
    assert (entries + [e])[..|entries|] == entries;
  }

  lemma ArgsAppend(r: Redactor, args: seq<string>, e: string)
    ensures RedactArgs(r, args + [e])
         == RedactArgs(r, args) + [if RedactNext(r, args) then REDACTED else RedactEntry(r, e)]
    ensures RedactNext(r, args + [e]) <==> !RedactNext(r, args) && IsSecretFlag(r, e)
  {
    assert (args + [e])[..|args|] == args;
  }

  lemma EnvironGrows(r: Redactor, done: seq<string>, e: string)
    ensures Frame(RedactEntries(r, done + [e])) == Frame(RedactEntries(r, done)) + RedactEntry(r, e) + "\0"
  {
    EntriesAppend(r, done, e);
    FrameAppend(RedactEntries(r, done), RedactEntry(r, e));
  }

  lemma CmdlineGrows(r: Redactor, done: seq<string>, e: string)
    ensures Frame(RedactArgs(r, done + [e]))
         == Frame(RedactArgs(r, done)) + (if RedactNext(r, done) then REDACTED else RedactEntry(r, e)) + "\0"
    ensures RedactNext(r, done + [e]) <==> !RedactNext(r, done) && IsSecretFlag(r, e)
  {
    ArgsAppend(r, done, e);
    FrameAppend(RedactArgs(r, done), if RedactNext(r, done) then REDACTED else RedactEntry(r, e));
  }

  lemma NonEmptyGrows(pieces: seq<string>, i: nat)
    requires i < |pieces|
    ensures NonEmpty(pieces[..i + 1])
         == if pieces[i] == "" then NonEmpty(pieces[..i]) else NonEmpty(pieces[..i]) + [pieces[i]]
  {
    assert pieces[..i + 1][..i] == pieces[..i];
  }

  /** The output for the first `i` pieces of a split blob. */
  ghost function EnvironUpTo(r: Redactor, pieces: seq<string>, i: nat): string
    requires i <= |pieces|
  {
    Frame(RedactEntries(r, NonEmpty(pieces[..i])))
  }

  ghost function CmdlineUpTo(r: Redactor, pieces: seq<string>, i: nat): string
    requires i <= |pieces|
  {
    Frame(RedactArgs(r, NonEmpty(pieces[..i])))
  }

  lemma EnvironStep(r: Redactor, pieces: seq<string>, i: nat)
    requires i < |pieces|
    ensures EnvironUpTo(r, pieces, i + 1)
         == if pieces[i] == "" then EnvironUpTo(r, pieces, i)
            else EnvironUpTo(r, pieces, i) + RedactEntry(r, pieces[i]) + "\0"
  {
    NonEmptyGrows(pieces, i);
    EnvironGrows(r, NonEmpty(pieces[..i]), pieces[i]);
  }

  lemma CmdlineStep(r: Redactor, pieces: seq<string>, i: nat)
    requires i < |pieces|
    ensures var next := RedactNext(r, NonEmpty(pieces[..i]));
            && CmdlineUpTo(r, pieces, i + 1)
               == (if pieces[i] == "" then CmdlineUpTo(r, pieces, i)
                   else CmdlineUpTo(r, pieces, i) + (if next then REDACTED else RedactEntry(r, pieces[i])) + "\0")
            && (RedactNext(r, NonEmpty(pieces[..i + 1]))
                <==> if pieces[i] == "" then next else !next && IsSecretFlag(r, pieces[i]))
  {
    NonEmptyGrows(pieces, i);
    CmdlineGrows(r, NonEmpty(pieces[..i]), pieces[i]);
  }

  method RedactEnviron(r: Redactor, raw: string) returns (out: string)
    ensures out == EnvironOf(r, raw)
    ensures !r.enabled ==> out == raw
  {
    if !r.enabled {
      return raw;
    }
    out := "";
    var pieces := Split(raw, '\0');
    for i := 0 to |pieces|
      invariant out == EnvironUpTo(r, pieces, i)
    {
      EnvironStep(r, pieces, i);
      if pieces[i] == "" {
        continue;
      }
      out := out + RedactEntry(r, pieces[i]);
      out := out + "\0";
    }
    assert pieces[..|pieces|] == pieces;
  }

  method RedactCmdline(r: Redactor, raw: string) returns (out: string)
    ensures out == CmdlineOf(r, raw)
    ensures !r.enabled ==> out == raw
  {
    if !r.enabled {
      return raw;
    }
    out := "";
    var redactNext := false;
    var pieces := Split(raw, '\0');
    for i := 0 to |pieces|
      invariant out == CmdlineUpTo(r, pieces, i)
      invariant redactNext == RedactNext(r, NonEmpty(pieces[..i]))
    {
      CmdlineStep(r, pieces, i);
      if pieces[i] == "" {
        continue;
      }
      if redactNext {
        out := out + REDACTED;
        redactNext := false;
      } else {
        redactNext := IsSecretFlag(r, pieces[i]);
        out := out + RedactEntry(r, pieces[i]);
      }
      out := out + "\0";
    }
    assert pieces[..|pieces|] == pieces;
  }

  function EnvironOf(r: Redactor, raw: string): string {
    if r.enabled then Frame(RedactEntries(r, Entries(raw))) else raw
  }

  function CmdlineOf(r: Redactor, raw: string): string {
    if r.enabled then Frame(RedactArgs(r, Entries(raw))) else raw
  }
}
