/** Idempotence, framing and independence of the redactor. */
module RedactLaws {
  import opened Text
  import opened Redact

  // ----- values with a scheme are not token-shaped -----

  lemma TokensHoldNoSlash(parts: seq<string>)
    requires forall i :: 0 <= i < |parts| ==> IsTokenShaped(parts[i])
    ensures '/' !in Join(parts, '.')
  {
    assert forall i :: 0 <= i < |parts| ==> '/' !in parts[i];
    JoinKeepsOut(parts, '.', '/');
  }

  lemma JwtHoldsNoSlash(value: string)
    ensures IsJwt(value) ==> '/' !in value
  {
    if IsJwt(value) {
      TokensHoldNoSlash(Split(value, '.'));
      JoinSplit(value, '.');
    }
  }

  /** A value with a slash in it is secret-shaped only as a PEM block. */
  lemma SlashedLooks(r: Redactor, value: string)
    requires '/' in value
    ensures LooksSecret(r, value) <==> StartsWith(value, "-----BEGIN")
  {
    JwtHoldsNoSlash(value);
    assert !IsTokenShaped(value);
  }

  lemma RedactedLooksPlain(r: Redactor)
    ensures !LooksSecret(r, REDACTED)
    ensures '@' !in REDACTED && ':' !in REDACTED && '&' !in REDACTED && '#' !in REDACTED && '?' !in REDACTED
    ensures '/' !in REDACTED && '\0' !in REDACTED && '=' !in REDACTED && REDACTED != ""
  {
    PrefixChar(REDACTED, "-----BEGIN", 0);
  }

  // ----- the parts of a URL -----

  /** The first `://` of any value that begins with `scheme://` is that one. */
  ghost predicate SchemeOk(scheme: string) {
    forall i: int :: i < |scheme| ==> !OccursAt(scheme + "://", "://", i)
  }

  ghost predicate None3(s: string) {
    '/' !in s && '?' !in s && '#' !in s
  }

  ghost predicate TailOk(tail: string) {
    tail == "" || tail[0] in {'/', '?', '#'}
  }

  function Url(scheme: string, authority: string, tail: string): string {
    scheme + "://" + authority + tail
  }

  lemma SameOccurrence(s: string, t: string, pat: string, i: int)
    requires s <= t && i + |pat| <= |s|
    ensures OccursAt(s, pat, i) <==> OccursAt(t, pat, i)
  {
    if 0 <= i {
      assert s[i..i + |pat|] == t[i..i + |pat|];
    }
  }

  lemma SchemeFound(scheme: string, rest: string)
    requires SchemeOk(scheme)
    ensures Find(scheme + "://" + rest, "://") == Some(|scheme|)
  {
    var value, head := scheme + "://" + rest, scheme + "://";
    assert head <= value;
    forall i: int | i < |scheme|
      ensures !OccursAt(value, "://", i)
    {
      SameOccurrence(head, value, "://", i);
    }
    assert value[|scheme|..|scheme| + 3] == "://" && OccursAt(value, "://", |scheme|);
  }

  /** Conversely, the text before the first `://` is such a scheme. */
  lemma SchemeSound(value: string, i: nat)
    requires Find(value, "://") == Some(i)
    ensures value == value[..i] + "://" + value[i + 3..] && SchemeOk(value[..i])
  {
    var scheme := value[..i];
    var head := scheme + "://";
    assert value == scheme + value[i..i + 3] + value[i + 3..];
    assert head <= value;
    forall j: int | j < |scheme|
      ensures !OccursAt(head, "://", j)
    {
      SameOccurrence(head, value, "://", j);
    }
  }

  lemma UrlPartsAt(scheme: string, authority: string, tail: string)
    requires SchemeOk(scheme) && None3(authority) && TailOk(tail)
    ensures UrlParts(Url(scheme, authority, tail)) == Some((scheme, authority, tail))
  {
    var value, rest := Url(scheme, authority, tail), authority + tail;
    assert value == scheme + "://" + rest;
    SchemeFound(scheme, rest);
    assert value[|scheme| + 3..] == rest;
    FindAnyAt(authority, tail, {'/', '?', '#'});
    assert value[..|scheme|] == scheme;
    assert (authority + tail)[..|authority|] == authority && (authority + tail)[|authority|..] == tail;
  }

  lemma UrlPartsSound(value: string)
    requires UrlParts(value).Some?
    ensures var (scheme, authority, tail) := UrlParts(value).value;
            value == Url(scheme, authority, tail) && SchemeOk(scheme) && None3(authority) && TailOk(tail)
  {
    var i := Find(value, "://").value;
    var scheme, rest := value[..i], value[i + 3..];
    SchemeSound(value, i);
    RestCut(rest);
    var end := FindAny(rest, {'/', '?', '#'});
    assert value == scheme + "://" + (rest[..end] + rest[end..]) == Url(scheme, rest[..end], rest[end..]);
  }

  lemma RestCut(rest: string)
    ensures var end := FindAny(rest, {'/', '?', '#'});
            None3(rest[..end]) && TailOk(rest[end..]) && rest == rest[..end] + rest[end..]
  {
  }

  /** Whether a URL is a PEM block is decided within its scheme. */
  lemma UrlLooks(r: Redactor, scheme: string, authority: string, tail: string)
    ensures LooksSecret(r, Url(scheme, authority, tail)) <==> StartsWith(scheme, "-----BEGIN")
  {
    var value := Url(scheme, authority, tail);
    assert value[|scheme| + 1] == '/';
    SlashedLooks(r, value);
    if |scheme| < 10 {
      PrefixChar(value, "-----BEGIN", |scheme|);
      assert value[|scheme|] == ':';
    } else {
      assert value[..10] == scheme[..10];
    }
  }

  // ----- authority -----

  function AuthorityOut(r: Redactor, authority: string): string {
    OrElse(RedactAuthority(r, authority), authority)
  }

  lemma AuthorityWithPassword(r: Redactor, user: string, password: string, host: string)
    requires '@' !in user && ':' !in user && '@' !in password && password != ""
    ensures RedactAuthority(r, user + ":" + password + "@" + host) == Some(user + ":" + REDACTED + "@" + host)
  {
    SplitOnceAt(user + ":" + password, '@', host);
    SplitOnceAt(user, ':', password);
  }

  lemma AuthorityIdempotent(r: Redactor, authority: string)
    requires None3(authority)
    ensures None3(AuthorityOut(r, authority))
    ensures AuthorityOut(r, AuthorityOut(r, authority)) == AuthorityOut(r, authority)
  {
    RedactedLooksPlain(r);
    if RedactAuthority(r, authority).Some? {
      var (userinfo, host) := SplitOnce(authority, '@').value;
      match SplitOnce(userinfo, ':')
      case Some((user, password)) =>
        AuthorityWithPassword(r, user, REDACTED, host);
      case None =>
        SplitOnceAt(REDACTED, '@', host);
    }
  }

  // ----- query -----

  lemma PairIdempotent(r: Redactor, pair: string)
    ensures RedactPair(r, RedactPair(r, pair)) == RedactPair(r, pair)
    ensures PairIsSecret(r, pair) ==> PairIsSecret(r, RedactPair(r, pair))
  {
    if PairIsSecret(r, pair) {
      var (key, value) := SplitOnce(pair, '=').value;
      SplitOnceAt(key, '=', REDACTED);
    }
  }

  lemma PairStaysWhole(r: Redactor, pair: string)
    requires '&' !in pair && '#' !in pair
    ensures '&' !in RedactPair(r, pair) && '#' !in RedactPair(r, pair)
  {
    RedactedLooksPlain(r);
  }

  function TailOut(r: Redactor, tail: string): string {
    OrElse(RedactQuery(r, tail), tail)
  }

  /** A query as the list of its pairs. */
  function TailOf(path: string, pairs: seq<string>, fragment: string): string {
    path + "?" + Join(pairs, '&') + fragment
  }

  ghost predicate PartsOk(path: string, pairs: seq<string>, fragment: string) {
    && '?' !in path && (fragment == "" || fragment[0] == '#') && |pairs| > 0
    && (forall i :: 0 <= i < |pairs| ==> '&' !in pairs[i] && '#' !in pairs[i])
  }

  lemma TailPartsAt(path: string, pairs: seq<string>, fragment: string)
    requires PartsOk(path, pairs, fragment)
    ensures TailParts(TailOf(path, pairs, fragment)) == Some((path, Join(pairs, '&'), fragment))
    ensures Split(Join(pairs, '&'), '&') == pairs
  {
    var query := Join(pairs, '&');
    JoinKeepsOut(pairs, '&', '#');
    assert TailOf(path, pairs, fragment) == path + ['?'] + (query + fragment);
    SplitOnceAt(path, '?', query + fragment);
    FindAnyAt(query, fragment, {'#'});
    assert (query + fragment)[..|query|] == query && (query + fragment)[|query|..] == fragment;
    SplitJoin(pairs, '&');
  }

  lemma TailPartsSound(tail: string)
    requires TailParts(tail).Some?
    ensures var (path, query, fragment) := TailParts(tail).value;
            tail == TailOf(path, Split(query, '&'), fragment) && PartsOk(path, Split(query, '&'), fragment)
  {
    var (path, after) := SplitOnce(tail, '?').value;
    var end := FindAny(after, {'#'});
    FragmentCut(after);
    JoinSplit(after[..end], '&');
    PiecesKeepOut(after[..end], '&', '#');
    Glue(path, after[..end], after[end..]);
  }

  lemma FragmentCut(after: string)
    ensures var end := FindAny(after, {'#'});
            after == after[..end] + after[end..] && '#' !in after[..end]
            && (after[end..] == "" || after[end..][0] == '#')
  {
  }

  lemma Glue(path: string, query: string, fragment: string)
    ensures path + ['?'] + (query + fragment) == path + "?" + query + fragment
  {
  }

  lemma PiecesKeepOut(s: string, sep: char, c: char)
    requires c !in s
    ensures forall i :: 0 <= i < |Split(s, sep)| ==> c !in Split(s, sep)[i]
  {
    JoinSplit(s, sep);
    forall i | 0 <= i < |Split(s, sep)|
      ensures c !in Split(s, sep)[i]
    {
      if c in Split(s, sep)[i] {
        JoinCovers(Split(s, sep), sep, i, c);
      }
    }
  }

  lemma {:induction false} JoinCovers(parts: seq<string>, sep: char, i: nat, c: char)
    requires i < |parts| && c in parts[i]
    ensures c in Join(parts, sep)
    decreases |parts|
  {
    if i > 0 {
      JoinCovers(parts[1..], sep, i - 1, c);
    }
  }

  lemma PairsStayWhole(r: Redactor, path: string, pairs: seq<string>, fragment: string)
    requires PartsOk(path, pairs, fragment)
    ensures PartsOk(path, RedactPairs(r, pairs), fragment)
  {
    forall i | 0 <= i < |pairs|
      ensures '&' !in RedactPairs(r, pairs)[i] && '#' !in RedactPairs(r, pairs)[i]
    {
      PairStaysWhole(r, pairs[i]);
    }
  }

  lemma PlainPairsKept(r: Redactor, pairs: seq<string>)
    requires forall i :: 0 <= i < |pairs| ==> !PairIsSecret(r, pairs[i])
    ensures RedactPairs(r, pairs) == pairs
  {
  }

  /** The rewrite of a tail, whether or not anything in it was secret. */
  lemma TailOutIs(r: Redactor, path: string, pairs: seq<string>, fragment: string)
    requires PartsOk(path, pairs, fragment)
    ensures TailOut(r, TailOf(path, pairs, fragment)) == TailOf(path, RedactPairs(r, pairs), fragment)
    ensures PartsOk(path, RedactPairs(r, pairs), fragment)
  {
    TailPartsAt(path, pairs, fragment);
    PairsStayWhole(r, path, pairs, fragment);
    if forall i :: 0 <= i < |pairs| ==> !PairIsSecret(r, pairs[i]) {
      PlainPairsKept(r, pairs);
    }
  }

  lemma TailIdempotent(r: Redactor, tail: string)
    requires TailOk(tail)
    ensures TailOk(TailOut(r, tail))
    ensures TailOut(r, TailOut(r, tail)) == TailOut(r, tail)
  {
    if TailParts(tail).Some? {
      TailPartsSound(tail);
      var (path, query, fragment) := TailParts(tail).value;
      var pairs := Split(query, '&');
      var once := RedactPairs(r, pairs);
      TailOutIs(r, path, pairs, fragment);
      TailOutIs(r, path, once, fragment);
      forall i | 0 <= i < |pairs|
        ensures RedactPair(r, once[i]) == once[i]
      {
        PairIdempotent(r, pairs[i]);
      }
      assert RedactPairs(r, once) == once;
      assert path != "" ==> TailOut(r, tail)[0] == tail[0];
    }
  }

  // ----- values and entries -----

  function UrlOut(r: Redactor, value: string): string {
    OrElse(RedactUrl(r, value), value)
  }

  lemma UrlOutIs(r: Redactor, scheme: string, authority: string, tail: string)
    requires SchemeOk(scheme) && None3(authority) && TailOk(tail)
    ensures UrlOut(r, Url(scheme, authority, tail)) == Url(scheme, AuthorityOut(r, authority), TailOut(r, tail))
  {
    UrlPartsAt(scheme, authority, tail);
  }

  lemma UrlIdempotent(r: Redactor, value: string)
    ensures UrlOut(r, UrlOut(r, value)) == UrlOut(r, value)
    ensures LooksSecret(r, UrlOut(r, value)) <==> LooksSecret(r, value)
  {
    if UrlParts(value).Some? {
      UrlPartsSound(value);
      var (scheme, authority, tail) := UrlParts(value).value;
      AuthorityIdempotent(r, authority);
      TailIdempotent(r, tail);
      UrlOutIs(r, scheme, authority, tail);
      UrlOutIs(r, scheme, AuthorityOut(r, authority), TailOut(r, tail));
      UrlLooks(r, scheme, authority, tail);
      UrlLooks(r, scheme, AuthorityOut(r, authority), TailOut(r, tail));
    }
  }

  /** The rewrite of a valid `key=value` entry. */
  function ValueOut(r: Redactor, key: string, value: string): string {
    if KeyIsSecret(r, key) || LooksSecret(r, value) then REDACTED else UrlOut(r, value)
  }

  lemma EntryOutIs(r: Redactor, key: string, value: string)
    requires '=' !in key
    ensures RedactEntry(r, key + "=" + value)
         == if ValidUtf8(key + "=" + value) then key + "=" + ValueOut(r, key, value) else key + "=" + value
  {
    SplitOnceAt(key, '=', value);
  }

  lemma ValueIdempotent(r: Redactor, key: string, value: string)
    ensures ValueOut(r, key, ValueOut(r, key, value)) == ValueOut(r, key, value)
  {
    RedactedLooksPlain(r);
    if KeyIsSecret(r, key) {
    } else if LooksSecret(r, value) {
      FoundHolds(REDACTED, "://", 0);
    } else {
      UrlIdempotent(r, value);
    }
  }

  lemma EntryIdempotent(r: Redactor, entry: string)
    ensures RedactEntry(r, RedactEntry(r, entry)) == RedactEntry(r, entry)
  {
    if ValidUtf8(entry) && SplitOnce(entry, '=').Some? {
      var (key, value) := SplitOnce(entry, '=').value;
      EntryOutIs(r, key, value);
      EntryOutIs(r, key, ValueOut(r, key, value));
      ValueIdempotent(r, key, value);
    }
  }

  /** The key, the text before the first `=`, is never changed, nor is having one. */
  lemma EntryKeepsKey(r: Redactor, entry: string)
    ensures match SplitOnce(entry, '=')
            case None => RedactEntry(r, entry) == entry
            case Some((key, _)) => SplitOnce(RedactEntry(r, entry), '=').Some?
                                   && SplitOnce(RedactEntry(r, entry), '=').value.0 == key
  {
    match SplitOnce(entry, '=')
    case None =>
    case Some((key, value)) =>
      EntryOutIs(r, key, value);
      SplitOnceAt(key, '=', ValueOut(r, key, value));
  }

  lemma FlagUnchanged(r: Redactor, arg: string)
    ensures IsSecretFlag(r, RedactEntry(r, arg)) <==> IsSecretFlag(r, arg)
  {
    EntryKeepsKey(r, arg);
  }

  // ----- no NUL is made up -----

  lemma RedactedPairsNoNul(r: Redactor, pairs: seq<string>)
    requires forall i :: 0 <= i < |pairs| ==> '\0' !in pairs[i]
    ensures forall i :: 0 <= i < |pairs| ==> '\0' !in RedactPairs(r, pairs)[i]
  {
    RedactedLooksPlain(r);
  }

  lemma TailNoNul(r: Redactor, tail: string)
    requires '\0' !in tail
    ensures '\0' !in TailOut(r, tail)
  {
    if TailParts(tail).Some? {
      TailPartsSound(tail);
      var (path, query, fragment) := TailParts(tail).value;
      var pairs := Split(query, '&');
      TailOutIs(r, path, pairs, fragment);
      PiecesKeepOut(query, '&', '\0');
      RedactedPairsNoNul(r, pairs);
      JoinKeepsOut(RedactPairs(r, pairs), '&', '\0');
    }
  }

  lemma AuthorityNoNul(r: Redactor, authority: string)
    requires '\0' !in authority
    ensures '\0' !in AuthorityOut(r, authority)
  {
    RedactedLooksPlain(r);
  }

  lemma EntryNoNul(r: Redactor, entry: string)
    requires '\0' !in entry && entry != ""
    ensures '\0' !in RedactEntry(r, entry) && RedactEntry(r, entry) != ""
  {
    if SplitOnce(entry, '=').Some? {
      var (key, value) := SplitOnce(entry, '=').value;
      RedactedLooksPlain(r);
      EntryOutIs(r, key, value);
      if UrlParts(value).Some? {
        UrlPartsSound(value);
        var (scheme, authority, tail) := UrlParts(value).value;
        UrlOutIs(r, scheme, authority, tail);
        AuthorityNoNul(r, authority);
        TailNoNul(r, tail);
      }
    }
  }

  // ----- whole blobs -----

  ghost predicate Frameable(entries: seq<string>) {
    forall i :: 0 <= i < |entries| ==> entries[i] != "" && '\0' !in entries[i]
  }

  lemma {:induction false} FrameFront(entries: seq<string>)
    requires entries != []
    ensures Frame(entries) == entries[0] + ['\0'] + Frame(entries[1..])
    decreases |entries|
  {
    if |entries| > 1 {
      var n := |entries| - 1;
      var init, last := entries[..n], entries[n];
      FrameFront(init);
      assert entries == init + [last] && entries[1..] == init[1..] + [last];
      FrameAppend(init, last);
      FrameAppend(init[1..], last);
      Regroup(init[0] + ['\0'], Frame(init[1..]), last);
    } else {
      assert entries == [] + [entries[0]];
      FrameAppend([], entries[0]);
    }
  }

  lemma Regroup(a: string, b: string, c: string)
    ensures (a + b) + c + "\0" == a + (b + c + "\0")
  {
  }

  lemma {:induction false} SplitFrame(entries: seq<string>)
    requires Frameable(entries)
    ensures Split(Frame(entries), '\0') == entries + [""]
    decreases |entries|
  {
    if entries != [] {
      SplitFrame(entries[1..]);
      SplitFrameStep(entries, Frame(entries[1..]));
    }
  }

  lemma SplitFrameStep(entries: seq<string>, rest: string)
    requires entries != [] && '\0' !in entries[0] && rest == Frame(entries[1..])
    requires Split(rest, '\0') == entries[1..] + [""]
    ensures Split(Frame(entries), '\0') == entries + [""]
  {
    FrameFront(entries);
    SplitCons(entries[0], '\0', rest);
    HeadTail(entries, "");
  }

  lemma HeadTail(entries: seq<string>, last: string)
    requires entries != []
    ensures [entries[0]] + (entries[1..] + [last]) == entries + [last]
  {
    assert entries == [entries[0]] + entries[1..];
  }

  lemma {:induction false} NonEmptyKeeps(parts: seq<string>)
    requires forall i :: 0 <= i < |parts| ==> parts[i] != ""
    ensures NonEmpty(parts) == parts
  {
    if parts != [] {
      NonEmptyKeeps(parts[..|parts| - 1]);
    }
  }

  /** Framing round trip. */
  lemma EntriesOfFrame(entries: seq<string>)
    requires Frameable(entries)
    ensures Entries(Frame(entries)) == entries
  {
    SplitFrame(entries);
    NonEmptyKeeps(entries);
    assert (entries + [""])[..|entries|] == entries;
  }

  lemma {:induction false} NonEmptyFrameable(parts: seq<string>)
    requires forall p :: p in parts ==> '\0' !in p
    ensures Frameable(NonEmpty(parts))
  {
    if parts != [] {
      NonEmptyFrameable(parts[..|parts| - 1]);
    }
  }

  lemma {:induction false} RedactedEntriesAt(r: Redactor, entries: seq<string>)
    ensures |RedactEntries(r, entries)| == |entries|
    ensures forall i :: 0 <= i < |entries| ==> RedactEntries(r, entries)[i] == RedactEntry(r, entries[i])
  {
    if entries != [] {
      RedactedEntriesAt(r, entries[..|entries| - 1]);
    }
  }

  lemma {:induction false} RedactedArgsLength(r: Redactor, args: seq<string>)
    ensures |RedactArgs(r, args)| == |args|
  {
    if args != [] {
      RedactedArgsLength(r, args[..|args| - 1]);
    }
  }

  lemma {:induction false} RedactedArgAt(r: Redactor, args: seq<string>, i: nat)
    requires i < |args|
    ensures |RedactArgs(r, args)| == |args|
    ensures RedactArgs(r, args)[i] == if RedactNext(r, args[..i]) then REDACTED else RedactEntry(r, args[i])
    decreases |args|
  {
    var n := |args| - 1;
    var init, last := args[..n], args[n];
    RedactedArgsLength(r, init);
    assert args == init + [last];
    ArgsAppend(r, init, last);
    if i < n {
      RedactedArgAt(r, init, i);
      assert init[..i] == args[..i];
    }
  }

  /** Splitting the output gives the entry-by-entry rewrite of splitting the input. */
  lemma EnvironEntries(r: Redactor, raw: string)
    requires r.enabled
    ensures Entries(EnvironOf(r, raw)) == RedactEntries(r, Entries(raw))
    ensures |Entries(EnvironOf(r, raw))| == |Entries(raw)|
    ensures forall i :: 0 <= i < |Entries(raw)| ==> Entries(EnvironOf(r, raw))[i] == RedactEntry(r, Entries(raw)[i])
  {
    var entries := Entries(raw);
    NonEmptyFrameable(Split(raw, '\0'));
    RedactedEntriesAt(r, entries);
    forall i | 0 <= i < |entries|
      ensures RedactEntries(r, entries)[i] != "" && '\0' !in RedactEntries(r, entries)[i]
    {
      EntryNoNul(r, entries[i]);
    }
    EntriesOfFrame(RedactEntries(r, entries));
  }

  lemma EnvironIdempotent(r: Redactor, raw: string)
    ensures EnvironOf(r, EnvironOf(r, raw)) == EnvironOf(r, raw)
  {
    if r.enabled {
      var once := RedactEntries(r, Entries(raw));
      EnvironEntries(r, raw);
      RedactedEntriesAt(r, once);
      forall i | 0 <= i < |once|
        ensures RedactEntries(r, once)[i] == once[i]
      {
        EntryIdempotent(r, Entries(raw)[i]);
      }
      assert RedactEntries(r, once) == once;
    }
  }

  /** The same for argv, through the lookahead: only a secret flag's argument is replaced whole. */
  lemma CmdlineEntries(r: Redactor, raw: string)
    requires r.enabled
    ensures Entries(CmdlineOf(r, raw)) == RedactArgs(r, Entries(raw))
    ensures |Entries(CmdlineOf(r, raw))| == |Entries(raw)|
    ensures forall i :: 0 <= i < |Entries(raw)| ==>
              Entries(CmdlineOf(r, raw))[i]
              == if RedactNext(r, Entries(raw)[..i]) then REDACTED else RedactEntry(r, Entries(raw)[i])
  {
    var args := Entries(raw);
    NonEmptyFrameable(Split(raw, '\0'));
    RedactedArgsLength(r, args);
    RedactedLooksPlain(r);
    forall i | 0 <= i < |args|
      ensures RedactArgs(r, args)[i] == if RedactNext(r, args[..i]) then REDACTED else RedactEntry(r, args[i])
      ensures RedactArgs(r, args)[i] != "" && '\0' !in RedactArgs(r, args)[i]
    {
      RedactedArgAt(r, args, i);
      EntryNoNul(r, args[i]);
    }
    EntriesOfFrame(RedactArgs(r, args));
  }

  lemma {:induction false} ArgsIdempotent(r: Redactor, args: seq<string>)
    ensures RedactNext(r, RedactArgs(r, args)) <==> RedactNext(r, args)
    ensures RedactArgs(r, RedactArgs(r, args)) == RedactArgs(r, args)
  {
    if args != [] {
      var n := |args| - 1;
      var before, next := RedactArgs(r, args[..n]), RedactNext(r, args[..n]);
      var last := if next then REDACTED else RedactEntry(r, args[n]);
      ArgsIdempotent(r, args[..n]);
      ArgsAppend(r, before, last);
      EntryIdempotent(r, args[n]);
      FlagUnchanged(r, args[n]);
    }
  }

  lemma CmdlineIdempotent(r: Redactor, raw: string)
    ensures CmdlineOf(r, CmdlineOf(r, raw)) == CmdlineOf(r, raw)
  {
    if r.enabled {
      CmdlineEntries(r, raw);
      ArgsIdempotent(r, Entries(raw));
    }
  }

  // ----- independence: what the output does not depend on -----

  /** A value that is redacted whole: its key is a keyword, or it has the shape of a secret. */
  ghost predicate WholeSecret(r: Redactor, e: string, key: string, value: string) {
    ValidUtf8(e) && '=' !in key && (KeyIsSecret(r, key) || LooksSecret(r, value)) && e == key + "=" + value
  }

  /** A URL with a user and a non-empty password, as section 3.2.1 of RFC 3986 allows them. */
  datatype PasswordUrl = PasswordUrl(key: string, scheme: string, user: string, host: string, tail: string)

  ghost predicate WellFormed(u: PasswordUrl) {
    && '=' !in u.key && SchemeOk(u.scheme) && TailOk(u.tail)
    && None3(u.user) && '@' !in u.user && ':' !in u.user && None3(u.host)
  }

  ghost predicate PasswordOk(password: string) {
    password != "" && None3(password) && '@' !in password
  }

  function WithPassword(u: PasswordUrl, password: string): string {
    u.key + "=" + Url(u.scheme, u.user + ":" + password + "@" + u.host, u.tail)
  }

  /** A lone token before the host. */
  function WithToken(u: PasswordUrl, token: string): string {
    u.key + "=" + Url(u.scheme, token + "@" + u.host, u.tail)
  }

  ghost predicate TokenOk(r: Redactor, token: string) {
    None3(token) && '@' !in token && ':' !in token && LooksSecret(r, token)
  }

  datatype QueryUrl = QueryUrl(key: string, scheme: string, authority: string, path: string, fragment: string)

  ghost predicate WellFormedQuery(u: QueryUrl, pairs: seq<string>) {
    && '=' !in u.key && SchemeOk(u.scheme) && None3(u.authority)
    && PartsOk(u.path, pairs, u.fragment) && TailOk(TailOf(u.path, pairs, u.fragment))
  }

  function WithPairs(u: QueryUrl, pairs: seq<string>): string {
    u.key + "=" + Url(u.scheme, u.authority, TailOf(u.path, pairs, u.fragment))
  }

  /** Same parameters, except for non-empty values of keyword parameters. */
  ghost predicate SamePair(r: Redactor, p: string, q: string) {
    p == q || (PairIsSecret(r, p) && PairIsSecret(r, q) && SplitOnce(p, '=').value.0 == SplitOnce(q, '=').value.0)
  }

  ghost predicate SamePairs(r: Redactor, ps: seq<string>, qs: seq<string>) {
    |ps| == |qs| && forall i :: 0 <= i < |ps| ==> SamePair(r, ps[i], qs[i])
  }

  lemma WholeSecretHidden(r: Redactor, e: string, f: string, key: string, v: string, w: string)
    requires WholeSecret(r, e, key, v) && WholeSecret(r, f, key, w)
    ensures RedactEntry(r, e) == RedactEntry(r, f)
  {
    EntryOutIs(r, key, v);
    EntryOutIs(r, key, w);
  }

  lemma None3Userinfo(user: string, password: string, host: string)
    requires None3(user) && None3(password) && None3(host)
    ensures None3(user + ":" + password + "@" + host)
  {
    assert None3(user + ":");
    assert None3(user + ":" + password);
    assert None3(user + ":" + password + "@");
  }

  lemma PasswordOut(r: Redactor, u: PasswordUrl, p: string)
    requires WellFormed(u) && PasswordOk(p) && ValidUtf8(WithPassword(u, p))
    ensures RedactEntry(r, WithPassword(u, p))
         == if KeyIsSecret(r, u.key) || StartsWith(u.scheme, "-----BEGIN") then u.key + "=" + REDACTED
            else u.key + "=" + Url(u.scheme, u.user + ":" + REDACTED + "@" + u.host, TailOut(r, u.tail))
  {
    var authority := u.user + ":" + p + "@" + u.host;
    None3Userinfo(u.user, p, u.host);
    EntryOutIs(r, u.key, Url(u.scheme, authority, u.tail));
    UrlLooks(r, u.scheme, authority, u.tail);
    UrlOutIs(r, u.scheme, authority, u.tail);
    AuthorityWithPassword(r, u.user, p, u.host);
  }

  lemma TokenOut(r: Redactor, u: PasswordUrl, token: string)
    requires WellFormed(u) && TokenOk(r, token) && ValidUtf8(WithToken(u, token))
    ensures RedactEntry(r, WithToken(u, token))
         == if KeyIsSecret(r, u.key) || StartsWith(u.scheme, "-----BEGIN") then u.key + "=" + REDACTED
            else u.key + "=" + Url(u.scheme, REDACTED + "@" + u.host, TailOut(r, u.tail))
  {
    var authority := token + "@" + u.host;
    assert None3(token + "@") && None3(authority);
    EntryOutIs(r, u.key, Url(u.scheme, authority, u.tail));
    UrlLooks(r, u.scheme, authority, u.tail);
    UrlOutIs(r, u.scheme, authority, u.tail);
    SplitOnceAt(token, '@', u.host);
  }

  lemma QueryOut(r: Redactor, u: QueryUrl, ps: seq<string>)
    requires WellFormedQuery(u, ps) && ValidUtf8(WithPairs(u, ps))
    ensures RedactEntry(r, WithPairs(u, ps))
         == if KeyIsSecret(r, u.key) || StartsWith(u.scheme, "-----BEGIN") then u.key + "=" + REDACTED
            else u.key + "=" + Url(u.scheme, AuthorityOut(r, u.authority),
                                   TailOf(u.path, RedactPairs(r, ps), u.fragment))
  {
    var tail := TailOf(u.path, ps, u.fragment);
    EntryOutIs(r, u.key, Url(u.scheme, u.authority, tail));
    UrlLooks(r, u.scheme, u.authority, tail);
    UrlOutIs(r, u.scheme, u.authority, tail);
    TailOutIs(r, u.path, ps, u.fragment);
  }

  // ----- two URLs that differ in all their secrets at once -----

  /** What differs between two authorities is a password or a lone token, if anything. */
  ghost predicate SamePassword(user: string, p: string, q: string, host: string, a: string, b: string) {
    && '@' !in user && ':' !in user && PasswordOk(p) && PasswordOk(q)
    && a == user + ":" + p + "@" + host && b == user + ":" + q + "@" + host
  }

  ghost predicate SameToken(r: Redactor, p: string, q: string, host: string, a: string, b: string) {
    TokenOk(r, p) && TokenOk(r, q) && a == p + "@" + host && b == q + "@" + host
  }

  ghost predicate SameAuthority(r: Redactor, a: string, b: string) {
    || a == b
    || (exists user, p, q, host :: SamePassword(user, p, q, host, a, b))
    || (exists p, q, host :: SameToken(r, p, q, host, a, b))
  }

  /** What differs between two tails is non-empty values of keyword parameters, if anything. */
  ghost predicate SameQuery(r: Redactor, path: string, ps: seq<string>, qs: seq<string>, fragment: string,
                            s: string, t: string) {
    && PartsOk(path, ps, fragment) && PartsOk(path, qs, fragment) && SamePairs(r, ps, qs)
    && s == TailOf(path, ps, fragment) && t == TailOf(path, qs, fragment)
  }

  ghost predicate SameTail(r: Redactor, s: string, t: string) {
    s == t || exists path, ps, qs, fragment :: SameQuery(r, path, ps, qs, fragment, s, t)
  }

  datatype UrlEntry = UrlEntry(key: string, scheme: string, authority: string, tail: string)

  ghost predicate UrlEntryOk(u: UrlEntry) {
    '=' !in u.key && SchemeOk(u.scheme) && None3(u.authority) && TailOk(u.tail)
  }

  function EntryOf(u: UrlEntry): string {
    u.key + "=" + Url(u.scheme, u.authority, u.tail)
  }

  ghost predicate SameUrl(r: Redactor, u: UrlEntry, v: UrlEntry) {
    && UrlEntryOk(u) && UrlEntryOk(v) && u.key == v.key && u.scheme == v.scheme
    && SameAuthority(r, u.authority, v.authority) && SameTail(r, u.tail, v.tail)
  }

  lemma AuthorityHidden(r: Redactor, a: string, b: string)
    requires SameAuthority(r, a, b)
    ensures AuthorityOut(r, a) == AuthorityOut(r, b)
  {
    if a == b {
    } else if user, p, q, host :| SamePassword(user, p, q, host, a, b) {
      AuthorityWithPassword(r, user, p, host);
      AuthorityWithPassword(r, user, q, host);
    } else {
      var p, q, host :| SameToken(r, p, q, host, a, b);
      SplitOnceAt(p, '@', host);
      SplitOnceAt(q, '@', host);
    }
  }

  lemma TailHidden(r: Redactor, s: string, t: string)
    requires SameTail(r, s, t)
    ensures TailOut(r, s) == TailOut(r, t)
  {
    if s != t {
      var path, ps, qs, fragment :| SameQuery(r, path, ps, qs, fragment, s, t);
      TailOutIs(r, path, ps, fragment);
      TailOutIs(r, path, qs, fragment);
      forall i | 0 <= i < |ps|
        ensures RedactPair(r, ps[i]) == RedactPair(r, qs[i])
      {
        assert SamePair(r, ps[i], qs[i]);
      }
      assert RedactPairs(r, ps) == RedactPairs(r, qs);
    }
  }

  /** The output for a URL entry, from the outputs for its parts. */
  lemma UrlEntryOut(r: Redactor, u: UrlEntry)
    requires UrlEntryOk(u) && ValidUtf8(EntryOf(u))
    ensures RedactEntry(r, EntryOf(u))
         == if KeyIsSecret(r, u.key) || StartsWith(u.scheme, "-----BEGIN") then u.key + "=" + REDACTED
            else u.key + "=" + Url(u.scheme, AuthorityOut(r, u.authority), TailOut(r, u.tail))
  {
    EntryOutIs(r, u.key, Url(u.scheme, u.authority, u.tail));
    UrlLooks(r, u.scheme, u.authority, u.tail);
    UrlOutIs(r, u.scheme, u.authority, u.tail);
  }

  lemma UrlSecretsHidden(r: Redactor, u: UrlEntry, v: UrlEntry)
    requires SameUrl(r, u, v) && ValidUtf8(EntryOf(u)) && ValidUtf8(EntryOf(v))
    ensures RedactEntry(r, EntryOf(u)) == RedactEntry(r, EntryOf(v))
  {
    UrlEntryOut(r, u);
    UrlEntryOut(r, v);
    AuthorityHidden(r, u.authority, v.authority);
    TailHidden(r, u.tail, v.tail);
  }

  /** Two entries that differ only in things the redactor must hide, in any number of them. */
  ghost predicate SameButSecrets(r: Redactor, e: string, f: string) {
    || e == f
    || (exists key, v, w :: WholeSecret(r, e, key, v) && WholeSecret(r, f, key, w))
    || (ValidUtf8(e) && ValidUtf8(f) && exists u, v :: SameUrl(r, u, v) && e == EntryOf(u) && f == EntryOf(v))
  }

  lemma SecretsHidden(r: Redactor, e: string, f: string)
    requires SameButSecrets(r, e, f)
    ensures RedactEntry(r, e) == RedactEntry(r, f)
  {
    if e == f {
    } else if key, v, w :| WholeSecret(r, e, key, v) && WholeSecret(r, f, key, w) {
      WholeSecretHidden(r, e, f, key, v, w);
    } else {
      var u, v :| SameUrl(r, u, v) && e == EntryOf(u) && f == EntryOf(v);
      UrlSecretsHidden(r, u, v);
    }
  }

  // ----- what is not hidden, exactly -----

  /** The value of a keyword variable is replaced if and only if the entry is valid UTF-8 (or was replaced before). */
  lemma KeywordRedactedIff(r: Redactor, key: string, value: string)
    requires '=' !in key && KeyIsSecret(r, key)
    ensures RedactEntry(r, key + "=" + value) == key + "=" + REDACTED
            <==> ValidUtf8(key + "=" + value) || value == REDACTED
  {
    EntryOutIs(r, key, value);
    if key + "=" + value == key + "=" + REDACTED {
      assert (key + "=" + value)[|key| + 1..] == value && (key + "=" + REDACTED)[|key| + 1..] == REDACTED;
    }
  }

  /**
   One stray byte is enough: whatever the key and the value, with `0xFF` at its end the entry comes
   through as it is.
   */
  lemma StrayByteLeaks(r: Redactor, key: string, value: string)
    ensures RedactEntry(r, key + "=" + value + [0xFF as char]) == key + "=" + value + [0xFF as char]
  {
    var e := key + "=" + value + [0xFF as char];
    assert e[|e| - 1] as int == 0xFF;
    assert Utf8Run(e) == Invalid;
  }

  // ----- and what is kept -----

  /** No userinfo, or one without a password that does not look like a token. */
  ghost predicate QuietAuthority(r: Redactor, a: string) {
    match SplitOnce(a, '@')
    case None => true
    case Some((userinfo, _)) =>
      match SplitOnce(userinfo, ':')
      case None => !LooksSecret(r, userinfo)
      case Some((_, password)) => password == ""
  }

  /** No query, or one without a value for a keyword parameter. */
  ghost predicate QuietTail(r: Redactor, tail: string) {
    '?' !in tail
    || exists path, pairs, fragment :: QuietQuery(r, path, pairs, fragment) && tail == TailOf(path, pairs, fragment)
  }

  ghost predicate QuietQuery(r: Redactor, path: string, pairs: seq<string>, fragment: string) {
    PartsOk(path, pairs, fragment) && forall i :: 0 <= i < |pairs| ==> !PairIsSecret(r, pairs[i])
  }

  lemma QuietTailKept(r: Redactor, tail: string)
    requires QuietTail(r, tail)
    ensures TailOut(r, tail) == tail
  {
    if '?' in tail {
      var path, pairs, fragment :| QuietQuery(r, path, pairs, fragment) && tail == TailOf(path, pairs, fragment);
      TailOutIs(r, path, pairs, fragment);
      assert RedactPairs(r, pairs) == pairs;
    }
  }

  /** An innocuous value comes through unchanged: one without a scheme, or any URL without a secret in it. */
  lemma InnocuousKept(r: Redactor, key: string, value: string)
    requires '=' !in key && !KeyIsSecret(r, key) && !LooksSecret(r, value)
    requires match UrlParts(value)
             case None => true
             case Some((_, authority, tail)) => QuietAuthority(r, authority) && QuietTail(r, tail)
    ensures RedactEntry(r, key + "=" + value) == key + "=" + value
  {
    EntryOutIs(r, key, value);
    match UrlParts(value)
    case None =>
    case Some((scheme, authority, tail)) =>
      UrlPartsSound(value);
      UrlOutIs(r, scheme, authority, tail);
      QuietTailKept(r, tail);
  }

  /** For instance a URL with neither userinfo nor query, or with a user name that is no token. */
  lemma PlainUrlsKept(r: Redactor, key: string, scheme: string, user: string, host: string, path: string)
    requires '=' !in key && !KeyIsSecret(r, key) && SchemeOk(scheme) && !StartsWith(scheme, "-----BEGIN")
    requires None3(user) && '@' !in user && ':' !in user && !LooksSecret(r, user)
    requires None3(host) && '@' !in host && TailOk(path) && '?' !in path
    ensures RedactEntry(r, key + "=" + Url(scheme, host, path)) == key + "=" + Url(scheme, host, path)
    ensures RedactEntry(r, key + "=" + Url(scheme, user + "@" + host, path))
         == key + "=" + Url(scheme, user + "@" + host, path)
  {
    UrlPartsAt(scheme, host, path);
    UrlLooks(r, scheme, host, path);
    InnocuousKept(r, key, Url(scheme, host, path));
    assert None3(user + "@") && None3(user + "@" + host);
    UrlPartsAt(scheme, user + "@" + host, path);
    UrlLooks(r, scheme, user + "@" + host, path);
    SplitOnceAt(user, '@', host);
    InnocuousKept(r, key, Url(scheme, user + "@" + host, path));
  }

  /** Two environments that differ only in secrets are redacted to the same blob. */
  lemma EnvironHidesSecrets(r: Redactor, raw: string, raw': string)
    requires r.enabled && |Entries(raw)| == |Entries(raw')|
    requires forall i :: 0 <= i < |Entries(raw)| ==> SameButSecrets(r, Entries(raw)[i], Entries(raw')[i])
    ensures EnvironOf(r, raw) == EnvironOf(r, raw')
  {
    var a, b := Entries(raw), Entries(raw');
    RedactedEntriesAt(r, a);
    RedactedEntriesAt(r, b);
    forall i | 0 <= i < |a|
      ensures RedactEntries(r, a)[i] == RedactEntries(r, b)[i]
    {
      SecretsHidden(r, a[i], b[i]);
    }
    assert RedactEntries(r, a) == RedactEntries(r, b);
  }

  /** Argument lists that differ only in secrets; the argument of a secret flag may be anything. */
  ghost predicate SameArgs(r: Redactor, a: seq<string>, b: seq<string>) {
    |a| == |b| &&
    (a == [] ||
     (var n := |a| - 1;
      SameArgs(r, a[..n], b[..n]) && (RedactNext(r, a[..n]) || SameButSecrets(r, a[n], b[n]))))
  }

  lemma {:induction false} ArgsHidden(r: Redactor, a: seq<string>, b: seq<string>)
    requires SameArgs(r, a, b)
    ensures RedactArgs(r, a) == RedactArgs(r, b)
    ensures RedactNext(r, a) <==> RedactNext(r, b)
    decreases |a|
  {
    if a != [] {
      var n := |a| - 1;
      ArgsHidden(r, a[..n], b[..n]);
      if !RedactNext(r, a[..n]) {
        SecretsHidden(r, a[n], b[n]);
        FlagUnchanged(r, a[n]);
        FlagUnchanged(r, b[n]);
      }
    }
  }

  /** Two command lines that differ only in secrets are redacted to the same blob. */
  lemma CmdlineHidesSecrets(r: Redactor, raw: string, raw': string)
    requires r.enabled && SameArgs(r, Entries(raw), Entries(raw'))
    ensures CmdlineOf(r, raw) == CmdlineOf(r, raw')
  {
    ArgsHidden(r, Entries(raw), Entries(raw'));
  }
}
