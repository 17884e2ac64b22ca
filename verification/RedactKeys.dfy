/** Which keys, flags, parameters and values are secret, in terms of their text. */
module RedactKeys {
  import opened Text
  import opened Redact
  import opened RedactLaws

  // ----- keywords in keys, whatever the case -----

  predicate SameLetter(a: char, b: char) {
    || a == b
    || ('a' <= a <= 'z' && b as int == a as int - 32)
    || ('A' <= a <= 'Z' && b as int == a as int + 32)
  }

  predicate SameUpToCase(s: string, t: string) {
    |s| == |t| && forall i :: 0 <= i < |s| ==> SameLetter(s[i], t[i])
  }

  /** As all the default keywords are: no lower-case letters. */
  predicate Capital(s: string) {
    forall i :: 0 <= i < |s| ==> !('a' <= s[i] <= 'z')
  }

  /** The keyword is in the key, at that place, in capitals or not. */
  predicate NamedAt(key: string, keyword: string, at: int) {
    0 <= at && at + |keyword| <= |key| && SameUpToCase(key[at..at + |keyword|], keyword)
  }

  ghost predicate Names(key: string, keyword: string) {
    exists at :: NamedAt(key, keyword, at)
  }

  lemma UpperSame(s: string, keyword: string)
    requires Capital(keyword)
    ensures ToUpper(s) == keyword <==> SameUpToCase(s, keyword)
  {
    if |s| == |keyword| {
      forall i | 0 <= i < |s|
        ensures ToUpper(s)[i] == keyword[i] <==> SameLetter(s[i], keyword[i])
      {
      }
    }
  }

  lemma UpperAt(key: string, keyword: string, at: int)
    requires Capital(keyword)
    ensures OccursAt(ToUpper(key), keyword, at) <==> NamedAt(key, keyword, at)
  {
    if 0 <= at && at + |keyword| <= |key| {
      var part := key[at..at + |keyword|];
      assert ToUpper(key)[at..at + |keyword|] == ToUpper(part);
      UpperSame(part, keyword);
    }
  }

  lemma FoundIff(key: string, keyword: string)
    requires Capital(keyword)
    ensures Find(ToUpper(key), keyword).Some? <==> Names(key, keyword)
  {
    if at :| NamedAt(key, keyword, at) {
      UpperAt(key, keyword, at);
    }
    match Find(ToUpper(key), keyword)
    case None =>
    case Some(i) => UpperAt(key, keyword, i);
  }

  ghost predicate AllCapital(r: Redactor) {
    forall i :: 0 <= i < |r.keywords| ==> Capital(r.keywords[i])
  }

  ghost predicate NamesSecret(r: Redactor, key: string) {
    exists i :: 0 <= i < |r.keywords| && Names(key, r.keywords[i])
  }

  /** A key is secret if and only if it has a keyword in it, up to the case of its letters. */
  lemma SecretKeyIff(r: Redactor, key: string)
    requires AllCapital(r)
    ensures KeyIsSecret(r, key) <==> NamesSecret(r, key)
  {
    forall i | 0 <= i < |r.keywords|
      ensures Find(ToUpper(key), r.keywords[i]).Some? <==> Names(key, r.keywords[i])
    {
      FoundIff(key, r.keywords[i]);
    }
  }

  /** The part of a key that is a keyword. */
  lemma PartNames(r: Redactor, a: string, k: string, b: string, i: nat)
    requires AllCapital(r) && i < |r.keywords| && SameUpToCase(k, r.keywords[i])
    ensures KeyIsSecret(r, a + k + b)
  {
    var key := a + k + b;
    assert key[|a|..|a| + |k|] == k;
    assert NamedAt(key, r.keywords[i], |a|);
    assert Names(key, r.keywords[i]);
    SecretKeyIff(r, key);
  }

  // ----- what that does to entries, flags and parameters -----

  /** Like `db_password=hunter2`: the value is hidden. */
  lemma NamedValueHidden(r: Redactor, a: string, k: string, b: string, i: nat, value: string)
    requires AllCapital(r) && i < |r.keywords| && SameUpToCase(k, r.keywords[i])
    requires '=' !in a + k + b && ValidUtf8(a + k + b + "=" + value)
    ensures RedactEntry(r, a + k + b + "=" + value) == a + k + b + "=" + "<redacted>"
  {
    PartNames(r, a, k, b, i);
    EntryOutIs(r, a + k + b, value);
  }

  /** The same for the environment it stands in. */
  lemma EnvironHidesNamed(r: Redactor, a: string, k: string, b: string, i: nat, value: string)
    requires r.enabled && AllCapital(r) && i < |r.keywords| && SameUpToCase(k, r.keywords[i])
    requires '=' !in a + k + b && ValidUtf8(a + k + b + "=" + value) && '\0' !in a + k + b + "=" + value
    ensures EnvironOf(r, a + k + b + "=" + value + "\0") == a + k + b + "=" + "<redacted>" + "\0"
  {
    var e := a + k + b + "=" + value;
    NamedValueHidden(r, a, k, b, i, value);
    OneEntry(e);
    OneFramed(RedactEntry(r, e));
    assert [e][..0] == [] && RedactEntries(r, [e]) == RedactEntries(r, []) + [RedactEntry(r, e)];
  }

  lemma OneEntry(e: string)
    requires '\0' !in e && e != ""
    ensures Entries(e + "\0") == [e]
  {
    SplitCons(e, '\0', "");
    assert e + ['\0'] + "" == e + "\0" && Split("", '\0') == [""];
    var parts := [e] + [""];
    assert parts[..1] == [e] && [e][..0] == [];
    assert NonEmpty([e]) == [e];
  }

  lemma OneFramed(e: string)
    ensures Frame([e]) == e + "\0"
  {
    assert [e][..0] == [];
  }

  /** An argument that starts with a dash and has a keyword in it, and no value of its own. */
  ghost predicate NamedFlag(r: Redactor, flag: string, a: string, k: string, b: string, i: nat) {
    && i < |r.keywords| && SameUpToCase(k, r.keywords[i])
    && flag == a + k + b && flag != "" && flag[0] == '-' && '=' !in flag && ValidUtf8(flag)
  }

  /** The output for one argument, given what is before it. */
  lemma ArgOut(r: Redactor, args: seq<string>, before: seq<string>, arg: string, after: seq<string>)
    requires args == before + [arg] + after
    ensures |RedactArgs(r, args)| == |args|
    ensures RedactArgs(r, args)[|before|] == if RedactNext(r, before) then "<redacted>" else RedactEntry(r, arg)
  {
    RedactedArgsLength(r, args);
    RedactedArgAt(r, args, |before|);
    assert args[..|before|] == before && args[|before|] == arg;
  }

  /** Like `--password hunter2`: unless the flag is itself the value of another one, the argument after it is hidden. */
  lemma FlagValueHidden(r: Redactor, before: seq<string>, flag: string, value: string, after: seq<string>,
                        a: string, k: string, b: string, i: nat)
    requires AllCapital(r) && NamedFlag(r, flag, a, k, b, i)
    requires before == [] || before[|before| - 1] == "" || before[|before| - 1][0] != '-'
    ensures var args := before + [flag, value] + after;
            |RedactArgs(r, args)| == |args| && RedactArgs(r, args)[|before| + 1] == "<redacted>"
  {
    var args := before + [flag, value] + after;
    NextOne(r, before, flag, a, k, b, i);
    CutInOne(before, flag, value, after);
    ArgOut(r, args, before + [flag], value, after);
  }

  lemma NoFlagLast(r: Redactor, before: seq<string>)
    requires before == [] || before[|before| - 1] == "" || before[|before| - 1][0] != '-'
    ensures !RedactNext(r, before)
  {
    if before != [] {
      PrefixChar(before[|before| - 1], "-", 0);
    }
  }

  /** The value of a flag is not taken for a flag: of two flags in a row only the second is hidden. */
  lemma FlagAfterFlag(r: Redactor, args: seq<string>, before: seq<string>, flag: string, other: string, value: string,
                      after: seq<string>)
    requires IsSecretFlag(r, flag) && args == before + [flag, other, value] + after
    requires before == [] || before[|before| - 1] == "" || before[|before| - 1][0] != '-'
    ensures |RedactArgs(r, args)| == |args|
    ensures RedactArgs(r, args)[|before| + 1] == "<redacted>"
    ensures RedactArgs(r, args)[|before| + 2] == RedactEntry(r, value)
  {
    var one, two := before + [flag], before + [flag] + [other];
    NextTwo(r, before, flag, other);
    CutInTwo(before, flag, other, value, after);
    ArgOut(r, args, one, other, [value] + after);
    ArgOut(r, args, two, value, after);
  }

  lemma NextOne(r: Redactor, before: seq<string>, flag: string, a: string, k: string, b: string, i: nat)
    requires AllCapital(r) && NamedFlag(r, flag, a, k, b, i)
    requires before == [] || before[|before| - 1] == "" || before[|before| - 1][0] != '-'
    ensures RedactNext(r, before + [flag])
  {
    PartNames(r, a, k, b, i);
    NoFlagLast(r, before);
    ArgsAppend(r, before, flag);
  }

  lemma CutInOne(before: seq<string>, flag: string, value: string, after: seq<string>)
    ensures before + [flag, value] + after == before + [flag] + [value] + after
  {
  }

  lemma NextTwo(r: Redactor, before: seq<string>, flag: string, other: string)
    requires IsSecretFlag(r, flag)
    requires before == [] || before[|before| - 1] == "" || before[|before| - 1][0] != '-'
    ensures RedactNext(r, before + [flag]) && !RedactNext(r, before + [flag] + [other])
  {
    NoFlagLast(r, before);
    ArgsAppend(r, before, flag);
    ArgsAppend(r, before + [flag], other);
  }

  lemma CutInTwo(before: seq<string>, flag: string, other: string, value: string, after: seq<string>)
    ensures before + [flag, other, value] + after == before + [flag] + [other] + ([value] + after)
    ensures before + [flag, other, value] + after == before + [flag] + [other] + [value] + after
  {
  }

  /** Like `?password=hunter2`: the parameter's value is hidden, if it has one. */
  lemma NamedParameterHidden(r: Redactor, a: string, k: string, b: string, i: nat, value: string)
    requires AllCapital(r) && i < |r.keywords| && SameUpToCase(k, r.keywords[i]) && '=' !in a + k + b
    ensures RedactPair(r, a + k + b + "=" + value)
         == if value == "" then a + k + b + "=" else a + k + b + "=" + "<redacted>"
  {
    PartNames(r, a, k, b, i);
    SplitOnceAt(a + k + b, '=', value);
    assert a + k + b + ['='] + value == a + k + b + "=" + value;
  }

  /** Conversely: without a keyword in the key, a value with neither the shape of a secret nor a scheme is kept. */
  lemma UnnamedValueKept(r: Redactor, key: string, value: string)
    requires AllCapital(r) && '=' !in key && !NamesSecret(r, key)
    requires !StartsWith(value, "-----BEGIN") && (|value| < 20 || exists i :: 0 <= i < |value| && !TokenOrDot(value[i]))
    requires Find(value, "://").None?
    ensures RedactEntry(r, key + "=" + value) == key + "=" + value
  {
    SecretKeyIff(r, key);
    SecretShapeIff(r, value);
    if |value| >= 20 {
      var i :| 0 <= i < |value| && !TokenOrDot(value[i]);
      NotAToken(value, i);
    }
    EntryOutIs(r, key, value);
  }

  // ----- values with the shape of a secret -----

  predicate TokenChar(c: char) {
    'a' <= c <= 'z' || 'A' <= c <= 'Z' || '0' <= c <= '9' || c in {'-', '_', '+', '='}
  }

  predicate TokenOrDot(c: char) {
    TokenChar(c) || c == '.'
  }

  predicate Token(s: string) {
    forall i :: 0 <= i < |s| ==> TokenChar(s[i])
  }

  /** Three tokens of at least four characters, with dots between them. */
  ghost predicate JwtShaped(s: string) {
    exists a, b, c :: ThreeTokens(s, a, b, c)
  }

  ghost predicate ThreeTokens(s: string, a: string, b: string, c: string) {
    s == a + "." + b + "." + c && |a| >= 4 && |b| >= 4 && |c| >= 4 && Token(a) && Token(b) && Token(c)
  }

  /** A value has the shape of a secret as a PEM block, a JWT of at least twenty characters, or a token of as many. */
  lemma SecretShapeIff(r: Redactor, value: string)
    ensures LooksSecret(r, value)
            <==> || StartsWith(value, "-----BEGIN")
                 || (|value| >= 20 && JwtShaped(value))
                 || (|value| >= 20 && Token(value) && r.highEntropy(value))
  {
    if |value| >= 20 {
      JwtIff(value);
    }
    TokenIff(value);
  }

  lemma TokenIff(s: string)
    ensures IsTokenShaped(s) <==> Token(s)
  {
  }

  lemma JwtParts(s: string, parts: seq<string>)
    requires IsJwt(s) && parts == Split(s, '.')
    ensures |parts| == 3 && ThreeTokens(s, parts[0], parts[1], parts[2])
  {
    JoinSplit(s, '.');
    JoinThree(parts[0], parts[1], parts[2]);
    assert parts == [parts[0], parts[1], parts[2]];
    TokenIff(parts[0]);
    TokenIff(parts[1]);
    TokenIff(parts[2]);
  }

  lemma TokensHoldNoDot(s: string)
    requires Token(s)
    ensures '.' !in s
  {
  }

  lemma PartsOfJwt(s: string, a: string, b: string, c: string)
    requires |s| >= 20 && ThreeTokens(s, a, b, c)
    ensures IsJwt(s)
  {
    JoinThree(a, b, c);
    TokensHoldNoDot(a);
    TokensHoldNoDot(b);
    TokensHoldNoDot(c);
    SplitJoin([a, b, c], '.');
    TokenIff(a);
    TokenIff(b);
    TokenIff(c);
  }

  lemma JwtIff(s: string)
    requires |s| >= 20
    ensures IsJwt(s) <==> JwtShaped(s)
  {
    if IsJwt(s) {
      JwtParts(s, Split(s, '.'));
    }
    if a, b, c :| ThreeTokens(s, a, b, c) {
      PartsOfJwt(s, a, b, c);
    }
  }

  lemma JoinThree(a: string, b: string, c: string)
    ensures Join([a, b, c], '.') == a + "." + b + "." + c
  {
    assert [a, b, c][1..] == [b, c] && [b, c][1..] == [c];
    assert Join([b, c], '.') == b + "." + c;
    assert a + ['.'] + (b + "." + c) == a + "." + b + "." + c;
  }

  lemma NotAToken(s: string, i: nat)
    requires i < |s| && !TokenOrDot(s[i])
    ensures !Token(s) && !JwtShaped(s)
  {
    if a, b, c :| ThreeTokens(s, a, b, c) {
      CharOf(a, b, c, i);
    }
  }

  lemma CharOf(a: string, b: string, c: string, i: nat)
    requires Token(a) && Token(b) && Token(c) && i < |a + "." + b + "." + c|
    ensures TokenOrDot((a + "." + b + "." + c)[i])
  {
  }
}
