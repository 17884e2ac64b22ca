/** Exactly which userinfo passwords the redactor replaces, and what it does with the others. */
module RedactPasswords {
  import opened Text
  import opened Redact
  import opened RedactLaws

  const DELIMITERS := {'/', '?', '#'}
  const SPECIAL := {'@', '/', '?', '#'}

  /** Free of the characters that end a userinfo. */
  ghost predicate Clean(s: string) {
    None3(s) && '@' !in s
  }

  /** The URL with its password replaced and the rest rewritten as ever. */
  function Hidden(r: Redactor, u: PasswordUrl): string {
    u.key + "=" + Url(u.scheme, u.user + ":" + REDACTED + "@" + u.host, TailOut(r, u.tail))
  }

  /** Neither the key nor the scheme makes the whole value a secret. */
  ghost predicate PlainEntry(r: Redactor, u: PasswordUrl) {
    !KeyIsSecret(r, u.key) && !StartsWith(u.scheme, "-----BEGIN")
  }

  // ----- outputs for passwords that are cut -----

  lemma EmptyPasswordKept(r: Redactor, user: string, host: string)
    requires '@' !in user && ':' !in user
    ensures RedactAuthority(r, user + ":" + "" + "@" + host) == None
  {
    SplitOnceAt(user + ":" + "", '@', host);
    SplitOnceAt(user, ':', "");
  }

  /** The text between the colon and the first at-sign is replaced, if there is any. */
  function Cut(user: string, before: string, host: string): string {
    user + ":" + (if before == "" then "" else REDACTED) + "@" + host
  }

  lemma CutAuthority(r: Redactor, user: string, before: string, host: string)
    requires '@' !in user && ':' !in user && '@' !in before
    ensures AuthorityOut(r, user + ":" + before + "@" + host) == Cut(user, before, host)
  {
    if before == "" {
      EmptyPasswordKept(r, user, host);
    } else {
      AuthorityWithPassword(r, user, before, host);
    }
  }

  lemma EntryFor(r: Redactor, u: PasswordUrl, authority: string, tail: string, entry: string)
    requires WellFormed(u) && PlainEntry(r, u) && None3(authority) && TailOk(tail)
    requires ValidUtf8(entry) && entry == u.key + "=" + Url(u.scheme, authority, tail)
    ensures RedactEntry(r, entry) == u.key + "=" + Url(u.scheme, AuthorityOut(r, authority), TailOut(r, tail))
  {
    UrlEntryOut(r, UrlEntry(u.key, u.scheme, authority, tail));
  }

  /** With an at-sign in it, what follows the first is taken for the host and kept in clear. */
  lemma AtSignLeaks(r: Redactor, u: PasswordUrl, before: string, after: string)
    requires WellFormed(u) && PlainEntry(r, u) && Clean(before) && None3(after)
    requires ValidUtf8(WithPassword(u, before + "@" + after))
    ensures RedactEntry(r, WithPassword(u, before + "@" + after))
         == u.key + "=" + Url(u.scheme, Cut(u.user, before, after + "@" + u.host), TailOut(r, u.tail))
  {
    var rest := after + "@" + u.host;
    assert None3(after + "@") && None3(rest);
    None3Userinfo(u.user, before, rest);
    var authority := u.user + ":" + before + "@" + rest;
    assert u.user + ":" + (before + "@" + after) + "@" + u.host == authority;
    EntryFor(r, u, authority, u.tail, WithPassword(u, before + "@" + after));
    CutAuthority(r, u.user, before, rest);
  }

  /** A delimiter ends the authority: without an at-sign before it, its beginning is kept in clear. */
  lemma DelimiterLeaks(r: Redactor, u: PasswordUrl, before: string, c: char, after: string)
    requires WellFormed(u) && PlainEntry(r, u) && Clean(before) && c in DELIMITERS
    requires ValidUtf8(WithPassword(u, before + [c] + after))
    ensures RedactEntry(r, WithPassword(u, before + [c] + after))
         == u.key + "=" + Url(u.scheme, u.user + ":" + before, TailOut(r, [c] + after + "@" + u.host + u.tail))
  {
    var authority, tail := u.user + ":" + before, [c] + after + "@" + u.host + u.tail;
    assert None3(u.user + ":") && None3(authority) && '@' !in authority;
    assert u.user + ":" + (before + [c] + after) + "@" + u.host + u.tail == authority + tail;
    SameText(u.scheme, u.user + ":" + (before + [c] + after) + "@" + u.host, u.tail, authority, tail);
    EntryFor(r, u, authority, tail, WithPassword(u, before + [c] + after));
  }

  /** With an at-sign before the delimiter, the text between the two is taken for the host. */
  lemma AtSignThenDelimiter(r: Redactor, u: PasswordUrl, before: string, mid: string, c: char, after: string)
    requires WellFormed(u) && PlainEntry(r, u) && Clean(before) && None3(mid) && c in DELIMITERS
    requires ValidUtf8(WithPassword(u, before + "@" + mid + [c] + after))
    ensures RedactEntry(r, WithPassword(u, before + "@" + mid + [c] + after))
         == u.key + "=" + Url(u.scheme, Cut(u.user, before, mid), TailOut(r, [c] + after + "@" + u.host + u.tail))
  {
    var authority, tail := u.user + ":" + before + "@" + mid, [c] + after + "@" + u.host + u.tail;
    None3Userinfo(u.user, before, mid);
    assert u.user + ":" + (before + "@" + mid + [c] + after) + "@" + u.host + u.tail == authority + tail;
    SameText(u.scheme, u.user + ":" + (before + "@" + mid + [c] + after) + "@" + u.host, u.tail, authority, tail);
    EntryFor(r, u, authority, tail, WithPassword(u, before + "@" + mid + [c] + after));
    CutAuthority(r, u.user, before, mid);
  }

  lemma SameText(scheme: string, a: string, s: string, b: string, t: string)
    requires a + s == b + t
    ensures Url(scheme, a, s) == Url(scheme, b, t)
  {
    assert Url(scheme, a, s) == scheme + "://" + (a + s);
    assert Url(scheme, b, t) == scheme + "://" + (b + t);
  }

  // ----- which of them coincide with the redacted form -----

  lemma PartsDecide(key: string, scheme: string, a: string, s: string, b: string, t: string)
    requires SchemeOk(scheme) && None3(a) && None3(b) && TailOk(s) && TailOk(t)
    ensures key + "=" + Url(scheme, a, s) == key + "=" + Url(scheme, b, t) <==> a == b && s == t
  {
    var e, f := key + "=" + Url(scheme, a, s), key + "=" + Url(scheme, b, t);
    UrlPartsAt(scheme, a, s);
    UrlPartsAt(scheme, b, t);
    assert e[|key| + 1..] == Url(scheme, a, s) && f[|key| + 1..] == Url(scheme, b, t);
  }

  lemma HiddenIs(r: Redactor, u: PasswordUrl, a: string, s: string)
    requires WellFormed(u) && None3(a) && TailOk(s)
    ensures u.key + "=" + Url(u.scheme, a, s) == Hidden(r, u)
            <==> a == u.user + ":" + REDACTED + "@" + u.host && s == TailOut(r, u.tail)
  {
    RedactedLooksPlain(r);
    None3Userinfo(u.user, REDACTED, u.host);
    TailIdempotent(r, u.tail);
    PartsDecide(u.key, u.scheme, a, s, u.user + ":" + REDACTED + "@" + u.host, TailOut(r, u.tail));
  }

  lemma CutIs(r: Redactor, user: string, before: string, mid: string, host: string)
    requires None3(user) && None3(mid)
    ensures None3(Cut(user, before, mid))
    ensures Cut(user, before, mid) == user + ":" + REDACTED + "@" + host <==> before != "" && mid == host
  {
    RedactedLooksPlain(r);
    None3Userinfo(user, REDACTED, mid);
    None3Userinfo(user, "", mid);
    var x, y := Cut(user, before, mid), user + ":" + REDACTED + "@" + host;
    if before == "" {
      assert x[|user| + 1] == '@' && y[|user| + 1] == '<';
    } else {
      var n := |user| + 1 + |REDACTED| + 1;
      assert x[n..] == mid && y[n..] == host;
    }
  }

  lemma AtSignNeverHidden(r: Redactor, u: PasswordUrl, before: string, after: string)
    requires WellFormed(u) && PlainEntry(r, u) && Clean(before) && None3(after)
    requires ValidUtf8(WithPassword(u, before + "@" + after))
    ensures RedactEntry(r, WithPassword(u, before + "@" + after)) != Hidden(r, u)
  {
    AtSignLeaks(r, u, before, after);
    var rest := after + "@" + u.host;
    assert None3(after + "@") && None3(rest);
    TailIdempotent(r, u.tail);
    CutIs(r, u.user, before, rest, u.host);
    HiddenIs(r, u, Cut(u.user, before, rest), TailOut(r, u.tail));
    assert |rest| > |u.host|;
  }

  lemma DelimiterNeverHidden(r: Redactor, u: PasswordUrl, before: string, c: char, after: string)
    requires WellFormed(u) && PlainEntry(r, u) && Clean(before) && c in DELIMITERS
    requires ValidUtf8(WithPassword(u, before + [c] + after))
    ensures RedactEntry(r, WithPassword(u, before + [c] + after)) != Hidden(r, u)
  {
    var a, b := u.user + ":" + before, u.user + ":" + REDACTED + "@" + u.host;
    DelimiterLeaks(r, u, before, c, after);
    assert None3(u.user + ":") && None3(a) && '@' !in a && b[|u.user| + 1 + |REDACTED|] == '@';
    TailIdempotent(r, [c] + after + "@" + u.host + u.tail);
    HiddenIs(r, u, a, TailOut(r, [c] + after + "@" + u.host + u.tail));
  }

  lemma AtSignThenDelimiterHidden(r: Redactor, u: PasswordUrl, before: string, mid: string, c: char, after: string)
    requires WellFormed(u) && PlainEntry(r, u) && Clean(before) && None3(mid) && c in DELIMITERS
    requires ValidUtf8(WithPassword(u, before + "@" + mid + [c] + after))
    ensures RedactEntry(r, WithPassword(u, before + "@" + mid + [c] + after)) == Hidden(r, u)
            <==> before != "" && mid == u.host && TailOut(r, [c] + after + "@" + u.host + u.tail) == TailOut(r, u.tail)
  {
    AtSignThenDelimiter(r, u, before, mid, c, after);
    TailIdempotent(r, [c] + after + "@" + u.host + u.tail);
    CutIs(r, u.user, before, mid, u.host);
    HiddenIs(r, u, Cut(u.user, before, mid), TailOut(r, [c] + after + "@" + u.host + u.tail));
  }

  // ----- a query that swallows the end of a password -----

  /** The text in front of a pair is swallowed by the redaction of the pair's value. */
  lemma PairSwallows(r: Redactor, w: string, pair: string)
    requires w != ""
    ensures RedactPair(r, w + pair) == RedactPair(r, pair)
            <==> PairIsSecret(r, pair) && StartsWith(w + pair, SplitOnce(pair, '=').value.0 + "=")
  {
    var all := w + pair;
    if PairIsSecret(r, pair) {
      var (key, value) := SplitOnce(pair, '=').value;
      SplitOnceAt(key, '=', REDACTED);
      if StartsWith(all, key + "=") {
        assert all == key + "=" + all[|key| + 1..];
        SplitOnceAt(key, '=', all[|key| + 1..]);
      }
    }
    if PairIsSecret(r, all) {
      var (key, value) := SplitOnce(all, '=').value;
      SplitOnceAt(key, '=', REDACTED);
      assert all == key + "=" + value;
      assert all[..|key| + 1] == key + "=";
    }
  }

  lemma SplitPrefix(w: string, s: string, c: char)
    requires c !in w
    ensures Split(w + s, c) == [w + Split(s, c)[0]] + Split(s, c)[1..]
  {
    match SplitOnce(s, c)
    case None =>
    case Some((a, b)) =>
      assert w + s == (w + a) + [c] + b;
      SplitCons(w + a, c, b);
      assert ([a] + Split(b, c))[1..] == Split(b, c);
  }

  lemma {:induction false} SplitGrows(w: string, s: string, c: char)
    ensures |Split(w + s, c)| >= |Split(s, c)|
    ensures c in w ==> |Split(w + s, c)| > |Split(s, c)|
    decreases |w|
  {
    match SplitOnce(w, c)
    case None => SplitPrefix(w, s, c);
    case Some((a, b)) =>
      assert w + s == a + [c] + (b + s);
      SplitCons(a, c, b + s);
      SplitGrows(b, s, c);
  }

  lemma RedactPairsCons(r: Redactor, first: string, rest: seq<string>)
    ensures RedactPairs(r, [first] + rest) == [RedactPair(r, first)] + RedactPairs(r, rest)
  {
    var pairs, out := [first] + rest, [RedactPair(r, first)] + RedactPairs(r, rest);
    assert |RedactPairs(r, pairs)| == |out|;
    forall i | 0 <= i < |out|
      ensures RedactPairs(r, pairs)[i] == out[i]
    {
      if i > 0 {
        assert pairs[i] == rest[i - 1] && out[i] == RedactPairs(r, rest)[i - 1];
      }
    }
  }

  lemma SameHead(a: string, b: string, rest: seq<string>)
    ensures [a] + rest == [b] + rest <==> a == b
  {
    assert ([a] + rest)[0] == a && ([b] + rest)[0] == b;
  }

  lemma PairsSwallow(r: Redactor, w: string, query: string)
    requires w != ""
    ensures var pairs := Split(query, '&');
            RedactPairs(r, Split(w + query, '&')) == RedactPairs(r, pairs)
            <==> '&' !in w && RedactPair(r, w + pairs[0]) == RedactPair(r, pairs[0])
  {
    var pairs, longer := Split(query, '&'), Split(w + query, '&');
    if '&' in w {
      SplitGrows(w, query, '&');
      assert |RedactPairs(r, longer)| > |RedactPairs(r, pairs)|;
    } else {
      var first, rest := pairs[0], pairs[1..];
      assert pairs == [first] + rest;
      SplitPrefix(w, query, '&');
      RedactPairsCons(r, w + first, rest);
      RedactPairsCons(r, first, rest);
      SameHead(RedactPair(r, w + first), RedactPair(r, first), RedactPairs(r, rest));
    }
  }

  /** What stands between the tail's own path and its first pair once `z@host` has been put in front of it. */
  function Wedge(y: string, host: string, path: string): string {
    y + "@" + host + path + "?"
  }

  /**
   `z@host` in front of the tail leaves no trace in the rewritten tail: `z` repeats the tail's path and
   question mark, and the rest of it ends up in the value of the tail's first parameter, a keyword parameter.
   */
  predicate TailSwallows(r: Redactor, z: string, host: string, tail: string) {
    match TailParts(tail)
    case None => false
    case Some((path, query, _)) =>
      var first := Split(query, '&')[0];
      && PairIsSecret(r, first) && StartsWith(z, path + "?")
      && (var w := Wedge(z[|path| + 1..], host, path);
          '&' !in w && '#' !in w && StartsWith(w + first, SplitOnce(first, '=').value.0 + "="))
  }

  lemma NoQueryKept(r: Redactor, s: string)
    ensures '?' !in s ==> TailOut(r, s) == s
    ensures '?' in s ==> '?' in TailOut(r, s)
  {
    if '?' in s {
      TailPartsSound(s);
      var (path, query, fragment) := TailParts(s).value;
      TailOutIs(r, path, Split(query, '&'), fragment);
      assert TailOf(path, RedactPairs(r, Split(query, '&')), fragment)[|path|] == '?';
    }
  }

  /** A tail without a query swallows nothing. */
  lemma PlainTailKeepsAll(r: Redactor, z: string, host: string, tail: string)
    requires '?' !in tail
    ensures TailOut(r, z + "@" + host + tail) != TailOut(r, tail)
  {
    var s := z + "@" + host + tail;
    NoQueryKept(r, s);
    NoQueryKept(r, tail);
    assert |s| > |tail|;
  }

  /** Nor does a tail that is not reached by a question mark in `z`. */
  lemma LongerPathKept(r: Redactor, before: string, path: string, pairs: seq<string>, fragment: string)
    requires '?' !in before && before != "" && PartsOk(path, pairs, fragment)
    ensures TailOut(r, before + TailOf(path, pairs, fragment)) != TailOut(r, TailOf(path, pairs, fragment))
  {
    assert before + TailOf(path, pairs, fragment) == TailOf(before + path, pairs, fragment);
    TailOutIs(r, path, pairs, fragment);
    TailOutIs(r, before + path, pairs, fragment);
    var redacted := RedactPairs(r, pairs);
    assert |TailOf(before + path, redacted, fragment)| == |before| + |TailOf(path, redacted, fragment)|;
  }

  lemma TailsDecide(p: string, ps: seq<string>, f: string, q: string, qs: seq<string>, g: string)
    requires PartsOk(p, ps, f) && PartsOk(q, qs, g)
    ensures TailOf(p, ps, f) == TailOf(q, qs, g) <==> p == q && ps == qs && f == g
  {
    TailPartsAt(p, ps, f);
    TailPartsAt(q, qs, g);
  }

  lemma GlueHash(x: string, w1: string, w2: string, query: string, fragment: string)
    ensures x + "?" + (w1 + ['#'] + w2 + query + fragment) == x + "?" + w1 + ("#" + w2 + query + fragment)
  {
  }

  /** A hash in the wedge makes everything after it a fragment, which is kept. */
  lemma HashKept(r: Redactor, x: string, w: string, path: string, query: string, fragment: string)
    requires '?' !in x && '#' in w && PartsOk(path, Split(query, '&'), fragment)
    ensures TailOut(r, x + "?" + (w + query + fragment)) != TailOut(r, TailOf(path, Split(query, '&'), fragment))
  {
    var (w1, w2) := SplitOnce(w, '#').value;
    var longer, pairs, pairs' := "#" + w2 + query + fragment, Split(query, '&'), Split(w1, '&');
    JoinSplit(w1, '&');
    PiecesKeepOut(w1, '&', '#');
    GlueHash(x, w1, w2, query, fragment);
    TailOutIs(r, x, pairs', longer);
    TailOutIs(r, path, pairs, fragment);
    TailsDecide(x, RedactPairs(r, pairs'), longer, path, RedactPairs(r, pairs), fragment);
    assert |longer| > |fragment|;
  }

  lemma WedgeDecides(r: Redactor, x: string, w: string, path: string, query: string, fragment: string)
    requires '?' !in x && w != "" && '#' !in w && '#' !in query && PartsOk(path, Split(query, '&'), fragment)
    ensures TailOut(r, x + "?" + (w + query + fragment)) == TailOut(r, TailOf(path, Split(query, '&'), fragment))
            <==> x == path && RedactPairs(r, Split(w + query, '&')) == RedactPairs(r, Split(query, '&'))
  {
    var pairs, pairs' := Split(query, '&'), Split(w + query, '&');
    JoinSplit(w + query, '&');
    PiecesKeepOut(w + query, '&', '#');
    assert x + "?" + (w + query + fragment) == TailOf(x, pairs', fragment);
    TailOutIs(r, x, pairs', fragment);
    TailOutIs(r, path, pairs, fragment);
    TailsDecide(x, RedactPairs(r, pairs'), fragment, path, RedactPairs(r, pairs), fragment);
  }

  /** A text that begins with `path?` is cut there. */
  lemma StartsAtPath(z: string, x: string, y: string, path: string)
    requires z == x + "?" + y && '?' !in x && '?' !in path
    ensures StartsWith(z, path + "?") <==> x == path
    ensures x == path ==> z[|path| + 1..] == y
  {
    if StartsWith(z, path + "?") {
      assert z == path + "?" + z[|path| + 1..];
      FirstCut(x, y, path, z[|path| + 1..], '?');
    }
    if x == path {
      assert z[..|path| + 1] == path + "?";
    }
  }

  lemma GlueWedge(x: string, y: string, host: string, path: string, query: string, fragment: string)
    ensures x + ['?'] + y + "@" + host + (path + "?" + query + fragment)
         == x + "?" + (Wedge(y, host, path) + query + fragment)
  {
    assert Wedge(y, host, path) == y + "@" + host + path + "?";
  }

  /** `TailSwallows`, for a `z` cut at its first question mark. */
  lemma SwallowsAt(r: Redactor, z: string, x: string, y: string, host: string, tail: string, path: string,
                   query: string)
    requires TailParts(tail).Some? && TailParts(tail).value.0 == path && TailParts(tail).value.1 == query
    requires z == x + "?" + y && '?' !in x && '?' !in path
    ensures TailSwallows(r, z, host, tail)
            <==> var w, first := Wedge(y, host, path), Split(query, '&')[0];
                 && x == path && '&' !in w && '#' !in w && PairIsSecret(r, first)
                 && StartsWith(w + first, SplitOnce(first, '=').value.0 + "=")
  {
    StartsAtPath(z, x, y, path);
  }

  lemma QuerySwallowsIff(r: Redactor, z: string, host: string, tail: string, path: string, query: string,
                         fragment: string)
    requires TailParts(tail) == Some((path, query, fragment)) && '?' in z
    ensures TailOut(r, z + "@" + host + tail) == TailOut(r, tail) <==> TailSwallows(r, z, host, tail)
  {
    TailPartsSound(tail);
    JoinSplit(query, '&');
    assert '#' !in query by {
      FragmentCut(SplitOnce(tail, '?').value.1);
    }
    var (x, y) := SplitOnce(z, '?').value;
    var w := Wedge(y, host, path);
    GlueWedge(x, y, host, path, query, fragment);
    SwallowsAt(r, z, x, y, host, tail, path, query);
    if '#' in w {
      HashKept(r, x, w, path, query, fragment);
    } else {
      WedgeDecides(r, x, w, path, query, fragment);
      PairsSwallow(r, w, query);
      PairSwallows(r, w, Split(query, '&')[0]);
    }
  }

  lemma TailSwallowsIff(r: Redactor, z: string, host: string, tail: string)
    requires '?' !in host
    ensures TailOut(r, z + "@" + host + tail) == TailOut(r, tail) <==> TailSwallows(r, z, host, tail)
  {
    match TailParts(tail)
    case None => PlainTailKeepsAll(r, z, host, tail);
    case Some((path, query, fragment)) =>
      if '?' in z {
        QuerySwallowsIff(r, z, host, tail, path, query, fragment);
      } else {
        TailPartsSound(tail);
        LongerPathKept(r, z + "@" + host, path, Split(query, '&'), fragment);
        if StartsWith(z, path + "?") {
          PrefixChar(z, path + "?", |path|);
        }
      }
  }

  // ----- the exact condition -----

  /**
   A password that is cut, and yet leaves no trace: after its first at-sign it repeats the host and goes
   on with a delimiter and a text that the tail's first parameter swallows.
   */
  ghost predicate Swallowed(r: Redactor, u: PasswordUrl, p: string) {
    var i := FindAny(p, SPECIAL);
    0 < i < |p| && p[i] == '@' && SwallowedAfter(r, u, p[i + 1..])
  }

  lemma CleanPrefix(p: string, i: nat)
    requires i <= |p| && forall k :: 0 <= k < i ==> p[k] !in SPECIAL
    ensures Clean(p[..i])
  {
    var s := p[..i];
    assert forall k :: 0 <= k < |s| ==> s[k] == p[k];
  }

  lemma SpecialSpoils(p: string, i: nat)
    requires i < |p| && p[i] in SPECIAL
    ensures !Clean(p)
  {
    assert p[i] in p;
  }

  lemma CutAt(p: string, i: nat)
    requires i < |p|
    ensures p == p[..i] + [p[i]] + p[i + 1..]
  {
  }

  /** What follows the at-sign is the host, a delimiter and a text that is swallowed. */
  ghost predicate SwallowedAfter(r: Redactor, u: PasswordUrl, after: string) {
    StartsWith(after, u.host)
    && (var z := after[|u.host|..]; z != "" && z[0] in DELIMITERS && TailSwallows(r, z, u.host, u.tail))
  }

  lemma SwallowedAfterIs(r: Redactor, u: PasswordUrl, after: string, mid: string, z: string)
    requires None3(u.host) && after == mid + z && None3(mid) && (z == "" || z[0] in DELIMITERS)
    ensures SwallowedAfter(r, u, after) <==> mid == u.host && z != "" && TailSwallows(r, z, u.host, u.tail)
  {
    HostThenDelimiter(after, mid, z, u.host);
  }

  /** The case of an at-sign first, cut at the delimiter after it. */
  lemma AtSignHiddenIff(r: Redactor, u: PasswordUrl, p: string, before: string, after: string)
    requires WellFormed(u) && PlainEntry(r, u) && Clean(before) && p == before + "@" + after
    requires ValidUtf8(WithPassword(u, p))
    ensures RedactEntry(r, WithPassword(u, p)) == Hidden(r, u) <==> before != "" && SwallowedAfter(r, u, after)
  {
    var n := FindAny(after, DELIMITERS);
    var mid, z := after[..n], after[n..];
    assert None3(mid) && after == mid + z;
    SwallowedAfterIs(r, u, after, mid, z);
    if z == "" {
      assert after == mid;
      AtSignNeverHidden(r, u, before, after);
    } else {
      assert p == before + "@" + mid + [z[0]] + z[1..] by {
        assert z == [z[0]] + z[1..];
      }
      SwallowedCase(r, u, before, mid, z);
    }
  }

  lemma SwallowedCase(r: Redactor, u: PasswordUrl, before: string, mid: string, z: string)
    requires WellFormed(u) && PlainEntry(r, u) && Clean(before) && None3(mid) && z != "" && z[0] in DELIMITERS
    requires ValidUtf8(WithPassword(u, before + "@" + mid + [z[0]] + z[1..]))
    ensures RedactEntry(r, WithPassword(u, before + "@" + mid + [z[0]] + z[1..])) == Hidden(r, u)
            <==> before != "" && mid == u.host && TailSwallows(r, z, u.host, u.tail)
  {
    AtSignThenDelimiterHidden(r, u, before, mid, z[0], z[1..]);
    assert [z[0]] + z[1..] == z;
    TailSwallowsIff(r, z, u.host, u.tail);
  }

  /** The host followed by a delimiter can only be what stands before the first delimiter. */
  lemma HostThenDelimiter(after: string, mid: string, z: string, host: string)
    requires after == mid + z && None3(mid) && None3(host) && (z == "" || z[0] in DELIMITERS)
    ensures StartsWith(after, host) && after[|host|..] != "" && after[|host|..][0] in DELIMITERS
            <==> mid == host && z != ""
    ensures mid == host ==> after[|host|..] == z
  {
    if StartsWith(after, host) && after[|host|..] != "" && after[|host|..][0] in DELIMITERS {
      assert after == host + after[|host|..];
      FindAnyAt(host, after[|host|..], DELIMITERS);
      FindAnyAt(mid, z, DELIMITERS);
      assert mid == after[..|mid|] && host == after[..|host|];
    }
    if mid == host {
      assert after[..|host|] == host && after[|host|..] == z;
    }
  }

  /**
   A userinfo password is replaced if and only if it is not empty and holds none of `@`, `/`, `?` and `#`,
   as section 3.2.1 of RFC 3986 demands, or is one of those that the tail's first parameter swallows.
   */
  lemma PasswordRedactedIff(r: Redactor, u: PasswordUrl, p: string)
    requires WellFormed(u) && PlainEntry(r, u) && ValidUtf8(WithPassword(u, p))
    ensures RedactEntry(r, WithPassword(u, p)) == Hidden(r, u) <==> PasswordOk(p) || Swallowed(r, u, p)
  {
    var i := FindAny(p, SPECIAL);
    CleanPrefix(p, i);
    if i == |p| {
      assert p[..i] == p;
      CleanHiddenIff(r, u, p);
    } else {
      SpecialSpoils(p, i);
      CutAt(p, i);
      if p[i] == '@' {
        AtSignHiddenIff(r, u, p, p[..i], p[i + 1..]);
      } else {
        DelimiterNeverHidden(r, u, p[..i], p[i], p[i + 1..]);
      }
    }
  }

  lemma CleanHiddenIff(r: Redactor, u: PasswordUrl, p: string)
    requires WellFormed(u) && PlainEntry(r, u) && Clean(p) && ValidUtf8(WithPassword(u, p))
    ensures RedactEntry(r, WithPassword(u, p)) == Hidden(r, u) <==> p != ""
  {
    None3Userinfo(u.user, p, u.host);
    EntryFor(r, u, u.user + ":" + p + "@" + u.host, u.tail, WithPassword(u, p));
    CutAuthority(r, u.user, p, u.host);
    TailIdempotent(r, u.tail);
    CutIs(r, u.user, p, u.host, u.host);
    HiddenIs(r, u, Cut(u.user, p, u.host), TailOut(r, u.tail));
  }

  /** The tail's first parameter has no value to hide; for instance, there is no query. */
  ghost predicate FirstPairPlain(r: Redactor, tail: string) {
    match TailParts(tail)
    case None => true
    case Some((_, query, _)) => !PairIsSecret(r, Split(query, '&')[0])
  }

  /** So for all such URLs the condition is on the password alone. */
  lemma PasswordAloneDecides(r: Redactor, u: PasswordUrl, p: string)
    requires WellFormed(u) && PlainEntry(r, u) && ValidUtf8(WithPassword(u, p)) && FirstPairPlain(r, u.tail)
    ensures RedactEntry(r, WithPassword(u, p)) == Hidden(r, u) <==> PasswordOk(p)
  {
    PasswordRedactedIff(r, u, p);
  }

  /** There are such passwords for every keyword parameter: in `u:x@y?pass=@y?pass=z`, for instance, `x@y?pass=`. */
  lemma SwallowedExists(r: Redactor, u: PasswordUrl, k: string, v: string, p: string)
    requires p == "x" + "@" + (u.host + ("?" + k + "="))
    requires None3(u.host) && '&' !in u.host && KeyIsSecret(r, k) && u.tail == "?" + k + "=" + v && v != ""
    requires '=' !in k && '&' !in k && '#' !in k && '&' !in v && '#' !in v
    ensures Swallowed(r, u, p)
  {
    KeywordAfter(r, u, k, v);
    CutSwallowed(r, u, p, "x", u.host + ("?" + k + "="));
  }

  lemma KeywordAfter(r: Redactor, u: PasswordUrl, k: string, v: string)
    requires None3(u.host) && '&' !in u.host && KeyIsSecret(r, k) && u.tail == "?" + k + "=" + v && v != ""
    requires '=' !in k && '&' !in k && '#' !in k && '&' !in v && '#' !in v
    ensures SwallowedAfter(r, u, u.host + ("?" + k + "="))
  {
    KeywordSwallows(r, u.host, u.tail, k, v);
    HostThenSwallows(r, u, "?" + k + "=");
  }

  lemma HostThenSwallows(r: Redactor, u: PasswordUrl, z: string)
    requires z != "" && z[0] in DELIMITERS && TailSwallows(r, z, u.host, u.tail)
    ensures SwallowedAfter(r, u, u.host + z)
  {
    assert (u.host + z)[..|u.host|] == u.host && (u.host + z)[|u.host|..] == z;
  }

  lemma FirstSpecialAt(before: string, after: string)
    requires forall i :: 0 <= i < |before| ==> before[i] !in SPECIAL
    ensures var p := before + "@" + after;
            FindAny(p, SPECIAL) == |before| && |p| > |before| && p[|before|] == '@' && p[|before| + 1..] == after
  {
    assert before + "@" + after == before + ("@" + after);
    FindAnyAt(before, "@" + after, SPECIAL);
  }

  lemma CutSwallowed(r: Redactor, u: PasswordUrl, p: string, before: string, after: string)
    requires p == before + "@" + after
    requires before != "" && SwallowedAfter(r, u, after) && forall i :: 0 <= i < |before| ==> before[i] !in SPECIAL
    ensures Swallowed(r, u, p)
  {
    FirstSpecialAt(before, after);
  }

  lemma KeywordSwallows(r: Redactor, host: string, tail: string, k: string, v: string)
    requires None3(host) && '&' !in host && KeyIsSecret(r, k) && tail == "?" + k + "=" + v && v != ""
    requires '=' !in k && '&' !in k && '#' !in k && '&' !in v && '#' !in v
    ensures TailSwallows(r, "?" + k + "=", host, tail)
  {
    var first := k + "=" + v;
    FirstPairIs(tail, first);
    PairOf(r, k, v);
    KeywordWedge(k, host, first);
  }

  lemma PairOf(r: Redactor, k: string, v: string)
    requires '=' !in k && v != "" && KeyIsSecret(r, k)
    ensures PairIsSecret(r, k + "=" + v) && SplitOnce(k + "=" + v, '=').value.0 == k
  {
    SplitOnceAt(k, '=', v);
  }

  lemma FirstPairIs(tail: string, first: string)
    requires tail == "?" + first && '&' !in first && '#' !in first
    ensures TailParts(tail) == Some(("", first, "")) && Split(first, '&') == [first]
  {
    assert Join([first], '&') == first && tail == TailOf("", [first], "");
    TailPartsAt("", [first], "");
  }

  lemma KeywordWedge(k: string, host: string, first: string)
    requires None3(host) && '&' !in host && '&' !in k && '#' !in k
    ensures StartsWith("?" + k + "=", "" + "?") && ("?" + k + "=")[|""| + 1..] == k + "="
    ensures var w := Wedge(k + "=", host, "");
            '&' !in w && '#' !in w && StartsWith(w + first, k + "=")
  {
    var w := Wedge(k + "=", host, "");
    assert w == (k + "=") + ("@" + host + "?");
    assert (w + first)[..|k| + 1] == k + "=";
  }
}
