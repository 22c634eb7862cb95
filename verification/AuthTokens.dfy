/**
 Start-authorization tokens: seven '|'-joined fields followed by '|' and the hex MAC of that
 payload.  The MAC is a parameter `sign(payload, secret)`; nothing is assumed about it except,
 where stated, that it yields separator-free ASCII text as `hexdigest()` does.
 */
module AuthTokens {
  import opened Basics
  import opened Text

  const SEPARATOR := '|'
  const FIELD_COUNT := 7

  datatype Fields = Fields(attempt: string, run: string, generation: int, slot: string,
                           session: string, issuedAt: int, ttl: int)

  /** What the worker validates a token against. */
  datatype Env = Env(session: string, current: string, previous: Option<string>,
                     maxTtl: int, skew: int, now: int)

  /** `Raised` is the TypeError of comparing a non-ASCII MAC text. */
  datatype Verdict = Accepted(fields: Fields) | Rejected(reason: string) | Raised

  type Sign = (string, string) -> string

  // ── splitting and joining ─────────────────────────────────────────────────

  function FirstSeparator(s: string): (i: nat)
    requires SEPARATOR in s
    ensures i < |s| && s[i] == SEPARATOR && SEPARATOR !in s[..i]
  {
    if s[0] == SEPARATOR then 0 else
      assert s == [s[0]] + s[1..];
      var j := FirstSeparator(s[1..]);
      assert s[..j + 1] == [s[0]] + s[1..][..j];
      j + 1
  }

  function LastSeparator(s: string): (i: nat)
    requires SEPARATOR in s
    ensures i < |s| && s[i] == SEPARATOR && SEPARATOR !in s[i + 1..]
  {
    var n := |s| - 1;
    if s[n] == SEPARATOR then n else
      assert s == s[..n] + [s[n]];
      var j := LastSeparator(s[..n]);
      assert s[j + 1..] == s[..n][j + 1..] + [s[n]];
      j
  }

  /** `text.split('|')`. */
  function Split(s: string): (parts: seq<string>)
    ensures |parts| > 0
    decreases |s|
  {
    if SEPARATOR !in s then [s] else
      var i := FirstSeparator(s);
      [s[..i]] + Split(s[i + 1..])
  }

  /** `'|'.join(parts)`. */
  function Join(parts: seq<string>): string
    requires |parts| > 0
  {
    if |parts| == 1 then parts[0] else parts[0] + [SEPARATOR] + Join(parts[1..])
  }

  predicate SeparatorFree(parts: seq<string>) {
    forall p | p in parts :: SEPARATOR !in p
  }

  lemma SplitStep(s: string)
    requires SEPARATOR in s
    ensures var i := FirstSeparator(s); Split(s) == [s[..i]] + Split(s[i + 1..])
  {
  }

  lemma JoinStep(head: string, parts: seq<string>)
    requires |parts| > 0
    ensures Join([head] + parts) == head + [SEPARATOR] + Join(parts)
  {
    assert ([head] + parts)[1..] == parts;
  }

  lemma CutAt(s: string, i: nat)
    requires i < |s|
    ensures s[..i] + [s[i]] + s[i + 1..] == s
  {
  }

  lemma JoinSplitStep(s: string)
    requires SEPARATOR in s && Join(Split(s[FirstSeparator(s) + 1..])) == s[FirstSeparator(s) + 1..]
    ensures Join(Split(s)) == s
  {
    var i := FirstSeparator(s);
    SplitStep(s);
    JoinStep(s[..i], Split(s[i + 1..]));
    CutAt(s, i);
  }

  lemma {:induction false} JoinSplit(s: string)
    ensures Join(Split(s)) == s
    decreases |s|
  {
    if SEPARATOR in s {
      JoinSplit(s[FirstSeparator(s) + 1..]);
      JoinSplitStep(s);
    }
  }

  lemma {:induction false} SplitSeparatorFree(s: string)
    ensures SeparatorFree(Split(s))
    decreases |s|
  {
    if SEPARATOR in s {
      SplitSeparatorFree(s[FirstSeparator(s) + 1..]);
      SplitStep(s);
    }
  }

  lemma {:induction false} SplitJoin(parts: seq<string>)
    requires |parts| > 0 && SeparatorFree(parts)
    ensures Split(Join(parts)) == parts
  {
    var s := Join(parts);
    if |parts| > 1 {
      var (h, rest) := (parts[0], Join(parts[1..]));
      assert parts[0] in parts;
      assert s[|h|] == SEPARATOR && s[..|h|] == h && s[|h| + 1..] == rest;
      FirstSeparatorUnique(s, |h|);
      assert SeparatorFree(parts[1..]);
      SplitJoin(parts[1..]);
    }
  }

  lemma FirstSeparatorUnique(s: string, i: nat)
    requires i < |s| && s[i] == SEPARATOR && SEPARATOR !in s[..i]
    ensures FirstSeparator(s) == i
  {
    var j := FirstSeparator(s);
    assert forall k | 0 <= k < i :: s[k] == s[..i][k] != SEPARATOR;
    assert forall k | 0 <= k < j :: s[k] == s[..j][k] != SEPARATOR;
  }

  // ── reading integers ──────────────────────────────────────────────────────

  predicate IsSpace(c: char) {
    c == ' ' || '\t' <= c <= '\r' || 28 as char <= c <= 31 as char
  }

  function StripLeft(s: string): string {
    if s != "" && IsSpace(s[0]) then StripLeft(s[1..]) else s
  }

  function StripRight(s: string): string {
    if s != "" && IsSpace(s[|s| - 1]) then StripRight(s[..|s| - 1]) else s
  }

  /** Digits, with single underscores allowed between two digits. */
  predicate IsNumeral(s: string) {
    && s != "" && IsDigit(s[0]) && IsDigit(s[|s| - 1])
    && (forall i | 0 <= i < |s| :: IsDigit(s[i]) || s[i] == '_')
    && (forall i | 0 < i < |s| :: s[i] == '_' ==> s[i - 1] != '_')
  }

  function DropUnderscores(s: string): (d: string)
    requires forall i | 0 <= i < |s| :: IsDigit(s[i]) || s[i] == '_'
    ensures forall c | c in d :: IsDigit(c)
  {
    if s == "" then ""
    else (if s[0] == '_' then "" else [s[0]]) + DropUnderscores(s[1..])
  }

  function ReadNumeral(body: string): Option<int> {
    if !IsNumeral(body) then None else Some(DigitsValue(DropUnderscores(body)))
  }

  function ReadSigned(t: string): Option<int> {
    if t != "" && t[0] == '-' then
      var r := ReadNumeral(t[1..]);
      if r.None? then None else Some(-r.value)
    else ReadNumeral(if t != "" && t[0] == '+' then t[1..] else t)
  }

  /** Python's `int(text)` on ASCII text; `None` is its ValueError. */
  function ParseInt(s: string): Option<int> {
    ReadSigned(StripRight(StripLeft(s)))
  }

  lemma {:induction false} DropUnderscoresOfDigits(s: string)
    requires forall c | c in s :: IsDigit(c)
    ensures DropUnderscores(s) == s
  {
    if s != "" {
      assert s[0] in s && s == [s[0]] + s[1..];
      DropUnderscoresOfDigits(s[1..]);
    }
  }

  lemma NumeralOfNat(n: nat)
    ensures ReadNumeral(NatText(n)) == Some(n)
  {
    var d := NatText(n);
    assert forall i | 0 <= i < |d| :: d[i] in d && IsDigit(d[i]);
    DropUnderscoresOfDigits(d);
    DigitsValueOfNatText(n);
  }

  lemma StripNothing(t: string)
    requires t != "" && !IsSpace(t[0]) && !IsSpace(t[|t| - 1])
    ensures StripRight(StripLeft(t)) == t
  {
  }

  /** `int(str(n)) == n` for every integer. */
  lemma ParseIntOfText(n: int)
    ensures ParseInt(IntText(n)) == Some(n)
  {
    var t := IntText(n);
    var d := NatText(if n < 0 then -n else n);
    NumeralOfNat(if n < 0 then -n else n);
    assert d[0] in d && t[|t| - 1] in t && t[0] in t;
    StripNothing(t);
    assert ReadSigned(t) == Some(n) by {
      assert n < 0 ==> t[1..] == d && t[0] == '-';
      assert n >= 0 ==> t == d && t[0] != '-' && t[0] != '+';
    }
  }

  // ── what an integer field may look like ───────────────────────────────────

  predicate Blank(s: string) {
    forall c | c in s :: IsSpace(c)
  }

  predicate IsSign(s: string) {
    s == "" || s == "+" || s == "-"
  }

  lemma {:induction false} StripLeftCuts(s: string) returns (l: string)
    ensures s == l + StripLeft(s) && Blank(l)
  {
    if s != "" && IsSpace(s[0]) {
      l := StripLeftCuts(s[1..]);
      l := [s[0]] + l;
    } else {
      l := "";
    }
  }

  lemma {:induction false} StripRightCuts(s: string) returns (r: string)
    ensures s == StripRight(s) + r && Blank(r)
  {
    if s != "" && IsSpace(s[|s| - 1]) {
      r := StripRightCuts(s[..|s| - 1]);
      r := r + [s[|s| - 1]];
    } else {
      r := "";
    }
  }

  lemma {:induction false} StripLeftOf(l: string, t: string)
    requires Blank(l) && t != "" && !IsSpace(t[0])
    ensures StripLeft(l + t) == t
  {
    if l == "" {
      assert l + t == t;
    } else {
      assert l[0] in l && (l + t)[1..] == l[1..] + t;
      StripLeftOf(l[1..], t);
    }
  }

  lemma {:induction false} StripRightOf(t: string, r: string)
    requires Blank(r) && t != "" && !IsSpace(t[|t| - 1])
    ensures StripRight(t + r) == t
  {
    if r == "" {
      assert t + r == t;
    } else {
      assert r[|r| - 1] in r && (t + r)[..|t + r| - 1] == t + r[..|r| - 1];
      StripRightOf(t, r[..|r| - 1]);
    }
  }

  /** What a text spells: blanks, a sign, digits with single underscores between them, blanks. */
  ghost predicate SpellsInt(s: string, v: int) {
    exists l, sign, body, r :: CutInt(s, l, sign, body, r) && v == SignedValue(sign, body)
  }

  predicate CutInt(s: string, l: string, sign: string, body: string, r: string) {
    s == l + (sign + body) + r && Blank(l) && Blank(r) && IsSign(sign) && IsNumeral(body)
  }

  function SignedValue(sign: string, body: string): int
    requires IsNumeral(body)
  {
    if sign == "-" then -(DigitsValue(DropUnderscores(body)) as int) else DigitsValue(DropUnderscores(body))
  }

  lemma ReadSignedOf(sign: string, body: string)
    requires IsSign(sign) && IsNumeral(body)
    ensures ReadSigned(sign + body) == Some(SignedValue(sign, body))
  {
    var t := sign + body;
    if sign == "" {
      assert t == body && IsDigit(t[0]);
    } else {
      assert t[0] == sign[0] && t[1..] == body;
    }
  }

  lemma SignedCuts(t: string) returns (sign: string, body: string)
    requires ReadSigned(t).Some?
    ensures t == sign + body && IsSign(sign) && IsNumeral(body) && ReadSigned(t) == Some(SignedValue(sign, body))
  {
    if t != "" && (t[0] == '-' || t[0] == '+') {
      sign, body := t[..1], t[1..];
    } else {
      sign, body := "", t;
    }
  }

  lemma CutIntParses(s: string, l: string, sign: string, body: string, r: string)
    requires CutInt(s, l, sign, body, r)
    ensures ParseInt(s) == Some(SignedValue(sign, body))
  {
    var t := sign + body;
    assert t[|t| - 1] == body[|body| - 1];
    assert (t + r)[0] == t[0] && l + t + r == l + (t + r);
    StripLeftOf(l, t + r);
    StripRightOf(t, r);
    ReadSignedOf(sign, body);
  }

  lemma ParsedCuts(s: string) returns (l: string, sign: string, body: string, r: string)
    requires ParseInt(s).Some?
    ensures CutInt(s, l, sign, body, r) && ParseInt(s) == Some(SignedValue(sign, body))
  {
    l := StripLeftCuts(s);
    r := StripRightCuts(StripLeft(s));
    sign, body := SignedCuts(StripRight(StripLeft(s)));
    assert l + (sign + body + r) == l + (sign + body) + r;
  }

  /** A field parses as an integer exactly when it spells that integer. */
  lemma ParsesIff(s: string, v: int)
    ensures ParseInt(s) == Some(v) <==> SpellsInt(s, v)
  {
    if ParseInt(s) == Some(v) {
      var l, sign, body, r := ParsedCuts(s);
    }
    if SpellsInt(s, v) {
      var l, sign, body, r :| CutInt(s, l, sign, body, r) && v == SignedValue(sign, body);
      CutIntParses(s, l, sign, body, r);
    }
  }

  // ── minting and validating ────────────────────────────────────────────────

  function Parts(f: Fields): (parts: seq<string>)
    ensures |parts| == FIELD_COUNT
  {
    [f.attempt, f.run, IntText(f.generation), f.slot, f.session, IntText(f.issuedAt), IntText(f.ttl)]
  }

  function Payload(f: Fields): string {
    Join(Parts(f))
  }

  /** `None` is the ValueError for a field that holds the separator. */
  function Mint(f: Fields, secret: string, sign: Sign): Option<string> {
    if !SeparatorFree(Parts(f)) then None
    else Some(Payload(f) + [SEPARATOR] + sign(Payload(f), secret))
  }

  /** The wire layout: attempt, run, generation, slot, session, issue time, lifetime, and the MAC of all that. */
  lemma TokenLayout(f: Fields, secret: string, sign: Sign)
    requires SeparatorFree(Parts(f))
    ensures var p := f.attempt + "|" + (f.run + "|" + (IntText(f.generation) + "|" + (f.slot + "|" + (f.session + "|"
                     + (IntText(f.issuedAt) + "|" + IntText(f.ttl))))));
            Mint(f, secret, sign) == Some(p + "|" + sign(p, secret))
  {
    var parts := Parts(f);
    assert parts[5..] == [parts[5]] + [parts[6]] && parts[4..] == [parts[4]] + parts[5..];
    assert parts[3..] == [parts[3]] + parts[4..] && parts[2..] == [parts[2]] + parts[3..];
    assert parts[1..] == [parts[1]] + parts[2..] && parts == [parts[0]] + parts[1..];
    JoinStep(parts[5], [parts[6]]);
    JoinStep(parts[4], parts[5..]);
    JoinStep(parts[3], parts[4..]);
    JoinStep(parts[2], parts[3..]);
    JoinStep(parts[1], parts[2..]);
    JoinStep(parts[0], parts[1..]);
  }

  predicate IsAscii(s: string) {
    forall c | c in s :: c < 128 as char
  }

  /** The seven fields read back, or `None` when one of the three integers does not parse. */
  function ReadFields(parts: seq<string>): Option<Fields>
    requires |parts| == FIELD_COUNT
  {
    match (ParseInt(parts[2]), ParseInt(parts[5]), ParseInt(parts[6]))
    case (Some(g), Some(i), Some(t)) => Some(Fields(parts[0], parts[1], g, parts[3], parts[4], i, t))
    case _ => None
  }

  predicate SignedBy(payload: string, mac: string, env: Env, sign: Sign) {
    mac == sign(payload, env.current) || (env.previous.Some? && mac == sign(payload, env.previous.value))
  }

  predicate HasSecret(env: Env) {
    env.current != "" || (env.previous.Some? && env.previous.value != "")
  }

  /** Signature, session, skew, TTL and expiry checks, in the order the worker makes them. */
  function Check(f: Fields, payload: string, mac: string, env: Env, sign: Sign): Verdict {
    if !HasSecret(env) then Rejected("no session secret configured")
    else if !IsAscii(mac) then Raised
    else if !SignedBy(payload, mac, env, sign) then Rejected("bad signature")
    else if f.session != env.session then Rejected("worker session mismatch")
    else if f.issuedAt > env.now + env.skew then Rejected("issued in the future")
    else if f.ttl < 0 then Rejected("negative ttl")
    else if f.ttl > env.maxTtl then Rejected("ttl exceeds max")
    else if f.issuedAt + f.ttl < env.now then Rejected("expired")
    else Accepted(f)
  }

  function CheckParts(parts: seq<string>, payload: string, mac: string, env: Env, sign: Sign): Verdict {
    if |parts| != FIELD_COUNT then Rejected("malformed token payload") else
      var read := ReadFields(parts);
      if read.None? then Rejected("malformed token fields") else Check(read.value, payload, mac, env, sign)
  }

  function Validate(token: string, env: Env, sign: Sign): Verdict {
    if SEPARATOR !in token then Rejected("malformed token") else
      var cut := LastSeparator(token);
      CheckParts(Split(token[..cut]), token[..cut], token[cut + 1..], env, sign)
  }

  // ── what the pair guarantees ──────────────────────────────────────────────

  /** `hexdigest()` text: ASCII without the separator. */
  ghost predicate HexLike(sign: Sign) {
    forall p, k :: SEPARATOR !in sign(p, k) && IsAscii(sign(p, k))
  }

  predicate InBounds(f: Fields, env: Env) {
    && f.session == env.session
    && f.issuedAt <= env.now + env.skew
    && 0 <= f.ttl <= env.maxTtl
    && env.now <= f.issuedAt + f.ttl
  }

  lemma PartsSeparatorFree(f: Fields)
    requires SEPARATOR !in f.attempt && SEPARATOR !in f.run && SEPARATOR !in f.slot && SEPARATOR !in f.session
    ensures SeparatorFree(Parts(f))
  {
  }

  lemma ReadPartsBack(f: Fields)
    ensures ReadFields(Parts(f)) == Some(f)
  {
    ParseIntOfText(f.generation);
    ParseIntOfText(f.issuedAt);
    ParseIntOfText(f.ttl);
  }

  lemma {:induction false} LastSeparatorUnique(s: string, i: nat)
    requires i < |s| && s[i] == SEPARATOR && SEPARATOR !in s[i + 1..]
    ensures LastSeparator(s) == i
  {
    var n := |s| - 1;
    if i < n {
      assert s[n] == s[i + 1..][n - i - 1];
      assert s[i + 1..] == s[..n][i + 1..] + [s[n]];
      LastSeparatorUnique(s[..n], i);
    }
  }

  lemma LastSeparatorOfConcat(payload: string, mac: string)
    requires SEPARATOR !in mac
    ensures var t := payload + [SEPARATOR] + mac;
            && SEPARATOR in t && LastSeparator(t) == |payload|
            && t[..|payload|] == payload && t[|payload| + 1..] == mac
  {
    var t := payload + [SEPARATOR] + mac;
    assert t[|payload|] == SEPARATOR && t[|payload| + 1..] == mac;
    LastSeparatorUnique(t, |payload|);
  }

  /** Distinct fields have distinct payloads, so one signature never covers two claims. */
  lemma PayloadInjective(f: Fields, g: Fields)
    requires SeparatorFree(Parts(f)) && SeparatorFree(Parts(g))
    requires Payload(f) == Payload(g)
    ensures f == g
  {
    SplitJoin(Parts(f));
    SplitJoin(Parts(g));
    ReadPartsBack(f);
    ReadPartsBack(g);
  }

  /** A token spelled from separator-free parts is judged on exactly those parts. */
  lemma ValidateSpelled(parts: seq<string>, mac: string, env: Env, sign: Sign)
    requires |parts| > 0 && SeparatorFree(parts) && SEPARATOR !in mac
    ensures Validate(Join(parts) + [SEPARATOR] + mac, env, sign) == CheckParts(parts, Join(parts), mac, env, sign)
  {
    LastSeparatorOfConcat(Join(parts), mac);
    SplitJoin(parts);
  }

  /** Whatever it is checked against, a token is accepted with its own fields or rejected. */
  lemma JudgedOnItsFields(parts: seq<string>, mac: string, f: Fields, env: Env, sign: Sign)
    requires |parts| == FIELD_COUNT && SeparatorFree(parts) && SEPARATOR !in mac
    requires ReadFields(parts) == Some(f) && IsAscii(mac)
    ensures var v := Validate(Join(parts) + [SEPARATOR] + mac, env, sign); v.Rejected? || v == Accepted(f)
  {
    ValidateSpelled(parts, mac, env, sign);
    assert CheckParts(parts, Join(parts), mac, env, sign) == Check(f, Join(parts), mac, env, sign);
  }

  /**
   A token minted under the worker's current or previous secret validates to exactly the
   minted fields when they are in bounds, and is rejected in every other case.
   */
  lemma MintThenValidate(f: Fields, secret: string, env: Env, sign: Sign)
    requires SeparatorFree(Parts(f)) && HexLike(sign) && HasSecret(env)
    requires secret == env.current || env.previous == Some(secret)
    ensures Mint(f, secret, sign).Some?
    ensures var v := Validate(Mint(f, secret, sign).value, env, sign);
            if InBounds(f, env) then v == Accepted(f) else v.Rejected?
  {
    var mac := sign(Payload(f), secret);
    ValidateSpelled(Parts(f), mac, env, sign);
    ReadPartsBack(f);
    assert SignedBy(Payload(f), mac, env, sign);
    assert CheckParts(Parts(f), Payload(f), mac, env, sign) == Check(f, Payload(f), mac, env, sign);
  }

  /** A token is this payload's seven separator-free fields, then this MAC. */
  predicate Spells(token: string, parts: seq<string>, mac: string) {
    && |parts| == FIELD_COUNT && SeparatorFree(parts) && SEPARATOR !in mac
    && token == Join(parts) + [SEPARATOR] + mac
  }

  ghost predicate Certified(token: string, f: Fields, parts: seq<string>, mac: string, env: Env, sign: Sign) {
    && Spells(token, parts, mac) && ReadFields(parts) == Some(f)
    && HasSecret(env) && IsAscii(mac) && SignedBy(Join(parts), mac, env, sign) && InBounds(f, env)
  }

  /** Every token with a separator has exactly one spelling. */
  lemma SpellingOf(token: string) returns (parts: seq<string>, mac: string)
    requires SEPARATOR in token
    ensures |parts| > 0 && SeparatorFree(parts) && SEPARATOR !in mac
    ensures token == Join(parts) + [SEPARATOR] + mac
  {
    var cut := LastSeparator(token);
    parts, mac := Split(token[..cut]), token[cut + 1..];
    JoinSplit(token[..cut]);
    SplitSeparatorFree(token[..cut]);
    assert token == token[..cut] + [token[cut]] + token[cut + 1..];
  }

  /** Acceptance, both ways: exactly the certified tokens are accepted, with exactly these fields. */
  lemma AcceptedIffCertified(token: string, f: Fields, env: Env, sign: Sign)
    ensures Validate(token, env, sign) == Accepted(f)
            <==> exists parts, mac :: Certified(token, f, parts, mac, env, sign)
  {
    if SEPARATOR in token {
      var parts, mac := SpellingOf(token);
      ValidateSpelled(parts, mac, env, sign);
      assert Validate(token, env, sign) == Accepted(f) ==> Certified(token, f, parts, mac, env, sign);
    }
    forall parts, mac | Certified(token, f, parts, mac, env, sign)
      ensures Validate(token, env, sign) == Accepted(f)
    {
      ValidateSpelled(parts, mac, env, sign);
    }
  }

  // ── refusals ──────────────────────────────────────────────────────────────

  /** Minting is refused exactly when one of the four text fields has a separator. */
  lemma MintRefusedIff(f: Fields, secret: string, sign: Sign)
    ensures Mint(f, secret, sign).None? <==>
            SEPARATOR in f.attempt || SEPARATOR in f.run || SEPARATOR in f.slot || SEPARATOR in f.session
  {
    var parts := Parts(f);
    assert parts[0] in parts && parts[1] in parts && parts[3] in parts && parts[4] in parts;
    if SEPARATOR !in f.attempt && SEPARATOR !in f.run && SEPARATOR !in f.slot && SEPARATOR !in f.session {
      PartsSeparatorFree(f);
    }
  }

  /** A malformed token is rejected for the first thing wrong with its shape. */
  lemma MalformedReasons(token: string, parts: seq<string>, mac: string, env: Env, sign: Sign)
    ensures SEPARATOR !in token ==> Validate(token, env, sign) == Rejected("malformed token")
    ensures |parts| > 0 && SeparatorFree(parts) && SEPARATOR !in mac && token == Join(parts) + [SEPARATOR] + mac ==>
              && (|parts| != 7 ==> Validate(token, env, sign) == Rejected("malformed token payload"))
              && (|parts| == 7 && ReadFields(parts).None? ==>
                    Validate(token, env, sign) == Rejected("malformed token fields"))
  {
    if |parts| > 0 && SeparatorFree(parts) && SEPARATOR !in mac && token == Join(parts) + [SEPARATOR] + mac {
      ValidateSpelled(parts, mac, env, sign);
    }
  }

  /** A well-formed token is judged in this order: secret, MAC text, signature, session, future, lifetime, expiry. */
  lemma RejectionReasons(parts: seq<string>, mac: string, f: Fields, env: Env, sign: Sign)
    requires |parts| == FIELD_COUNT && SeparatorFree(parts) && SEPARATOR !in mac && ReadFields(parts) == Some(f)
    ensures var v := Validate(Join(parts) + [SEPARATOR] + mac, env, sign);
            var signed := HasSecret(env) && IsAscii(mac) && SignedBy(Join(parts), mac, env, sign);
            var started := signed && f.session == env.session && f.issuedAt <= env.now + env.skew;
            && (!HasSecret(env) ==> v == Rejected("no session secret configured"))
            && (HasSecret(env) && !IsAscii(mac) ==> v == Raised)
            && (HasSecret(env) && IsAscii(mac) && !signed ==> v == Rejected("bad signature"))
            && (signed && f.session != env.session ==> v == Rejected("worker session mismatch"))
            && (signed && f.session == env.session && !started ==> v == Rejected("issued in the future"))
            && (started && f.ttl < 0 ==> v == Rejected("negative ttl"))
            && (started && f.ttl >= 0 && f.ttl > env.maxTtl ==> v == Rejected("ttl exceeds max"))
            && (started && 0 <= f.ttl <= env.maxTtl && f.issuedAt + f.ttl < env.now ==> v == Rejected("expired"))
  {
    ValidateSpelled(parts, mac, env, sign);
    assert CheckParts(parts, Join(parts), mac, env, sign) == Check(f, Join(parts), mac, env, sign);
  }
}
