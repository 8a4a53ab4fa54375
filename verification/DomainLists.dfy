/**
 Blocked-domain lists (`backend/app/services/domain_lists.py`): normalisation of
 what an administrator typed, and the regular expressions handed to Xray.
 */
module DomainLists {
  import opened Wrappers

  datatype DomainError = HasScheme | HasWhitespace | HasPath | HasPort | HasWildcard | NotADomain

  // ---------- str.strip / str.lower / str.rstrip ----------

  /** The characters for which `str.isspace` holds. */
  predicate IsSpace(c: char) {
    var n := c as int;
    || 0x09 <= n <= 0x0d || 0x1c <= n <= 0x20 || n == 0x85 || n == 0xa0 || n == 0x1680
    || 0x2000 <= n <= 0x200a || n == 0x2028 || n == 0x2029 || n == 0x202f || n == 0x205f || n == 0x3000
  }

  predicate NoSpace(s: string) {
    forall i :: 0 <= i < |s| ==> !IsSpace(s[i])
  }

  function LowerAscii(c: char): char {
    if 'A' <= c <= 'Z' then (c as int + 32) as char else c
  }

  /** The string is left alone by `lower`, character by character. */
  ghost predicate IsLowered(lower: string -> string, s: string) {
    forall i :: 0 <= i < |s| ==> lower([s[i]]) == [s[i]]
  }

  /**
   What the model needs to know of `str.lower`: ASCII as ever, no character of a result is lowered
   any further, and a string of such characters is left alone.
   */
  ghost predicate IsLowering(lower: string -> string) {
    && (forall c: char :: c < 128 as char ==> lower([c]) == [LowerAscii(c)])
    && (forall s: string :: IsLowered(lower, lower(s)))
    && (forall s: string :: IsLowered(lower, s) ==> lower(s) == s)
  }

  function AsciiOnly(s: string): (r: string)
    ensures |r| == |s| && forall i :: 0 <= i < |s| ==> r[i] == LowerAscii(s[i])
  {
    seq(|s|, i requires 0 <= i < |s| => LowerAscii(s[i]))
  }

  lemma AsciiOnlyIsLowering()
    ensures IsLowering(AsciiOnly)
  {
    forall s: string | IsLowered(AsciiOnly, s)
      ensures AsciiOnly(s) == s
    {
      forall i | 0 <= i < |s|
        ensures AsciiOnly(s)[i] == s[i]
      {
        assert AsciiOnly([s[i]])[0] == [s[i]][0];
      }
    }
  }

  type Lowering = lower: string -> string | IsLowering(lower) witness (AsciiOnlyIsLowering(); AsciiOnly)

  /** `str.lower` over all of Unicode: some lowering, about which nothing else is assumed. */
  const LOWER: Lowering

  function Lower(s: string): string {
    LOWER(s)
  }

  function StripLeft(s: string): string {
    if s != "" && IsSpace(s[0]) then StripLeft(s[1..]) else s
  }

  function StripRight(s: string): string {
    if s != "" && IsSpace(s[|s| - 1]) then StripRight(s[..|s| - 1]) else s
  }

  function Strip(s: string): string {
    StripRight(StripLeft(s))
  }

  function StripDots(s: string): (r: string)
    ensures r <= s
    ensures r != "" ==> r[|r| - 1] != '.'
  {
    if s != "" && s[|s| - 1] == '.' then StripDots(s[..|s| - 1]) else s
  }

  function Clean(raw: string): string {
    StripDots(Lower(Strip(raw)))
  }

  // ---------- validation of one value ----------

  /** `value.split(".")` */
  function Labels(s: string): (labels: seq<string>)
    ensures |labels| >= 1
  {
    if s == "" then [""]
    else
      var rest := Labels(s[1..]);
      if s[0] == '.' then [""] + rest else [[s[0]] + rest[0]] + rest[1..]
  }

  predicate SchemeAt(value: string, i: int) {
    0 <= i <= |value| - 3 && value[i..i + 3] == "://"
  }

  function Check(value: string): Option<DomainError> {
    if exists i :: 0 <= i < |value| && SchemeAt(value, i) then Some(HasScheme)
    else if exists i :: 0 <= i < |value| && IsSpace(value[i]) then Some(HasWhitespace)
    else if '/' in value || '\\' in value then Some(HasPath)
    else if ':' in value then Some(HasPort)
    else if '*' in value then Some(HasWildcard)
    else if |Labels(value)| < 2 || "" in Labels(value) then Some(NotADomain)
    else None
  }

  /** What a domain looks like: dots inside, never two together, and none of the forbidden characters. */
  ghost predicate IsDomain(s: string) {
    && s != "" && s[0] != '.' && s[|s| - 1] != '.' && '.' in s
    && (forall i :: 0 <= i < |s| - 1 ==> s[i] != '.' || s[i + 1] != '.')
    && forall i :: 0 <= i < |s| ==> s[i] !in {':', '/', '\\', '*'} && !IsSpace(s[i])
  }

  ghost predicate TwoDots(s: string) {
    exists i :: 0 <= i < |s| - 1 && s[i] == '.' && s[i + 1] == '.'
  }

  lemma TwoDotsOneMore(s: string)
    requires s != ""
    ensures TwoDots(s) <==> TwoDots(s[1..]) || (|s| > 1 && s[0] == '.' && s[1] == '.')
  {
    var rest := s[1..];
    if TwoDots(s) && !(|s| > 1 && s[0] == '.' && s[1] == '.') {
      var i :| 0 <= i < |s| - 1 && s[i] == '.' && s[i + 1] == '.';
      assert rest[i - 1] == '.' && rest[i - 1 + 1] == '.';
    }
    if i :| 0 <= i < |rest| - 1 && rest[i] == '.' && rest[i + 1] == '.' {
      assert s[i + 1] == '.' && s[i + 1 + 1] == '.';
    }
  }

  /** Which labels are empty: the first after a leading dot, the last before a trailing one, one between two dots. */
  lemma {:induction false} LabelsMeaning(s: string)
    ensures |Labels(s)| >= 2 <==> '.' in s
    ensures Labels(s)[0] == "" <==> s == "" || s[0] == '.'
    ensures "" in Labels(s)[1..] <==> s != "" && (s[|s| - 1] == '.' || TwoDots(s))
  {
    if s != "" {
      var rest := Labels(s[1..]);
      LabelsMeaning(s[1..]);
      TwoDotsOneMore(s);
      assert "" in rest <==> rest[0] == "" || "" in rest[1..];
      if s[0] == '.' {
        assert Labels(s)[1..] == rest;
      } else {
        assert Labels(s)[1..] == rest[1..];
      }
    }
  }

  /** A cleaned value is accepted exactly if it looks like a domain. */
  lemma AcceptedExactlyWhen(value: string)
    ensures Check(value).None? <==> IsDomain(value)
  {
    LabelsMeaning(value);
    var labels := Labels(value);
    assert "" in labels <==> labels[0] == "" || "" in labels[1..];
    if i :| 0 <= i < |value| && SchemeAt(value, i) {
      assert value[i..i + 3][0] == value[i] == ':';
    }
    assert value != "" && !TwoDots(value) <==>
           value != "" && forall i :: 0 <= i < |value| - 1 ==> value[i] != '.' || value[i + 1] != '.';
  }

  /** Cleaning takes the white space around a value and the dots after it, and lowers the rest. */
  lemma CleaningMeaning(raw: string) returns (front: string, core: string, back: string, dots: nat)
    ensures raw == front + (core + back)
    ensures (forall i :: 0 <= i < |front| ==> IsSpace(front[i])) && (forall i :: 0 <= i < |back| ==> IsSpace(back[i]))
    ensures core != "" ==> !IsSpace(core[0]) && !IsSpace(core[|core| - 1])
    ensures Lower(core) == Clean(raw) + seq(dots, i => '.')
    ensures Clean(raw) != "" ==> Clean(raw)[|Clean(raw)| - 1] != '.'
  {
    front := StrippedLeft(raw);
    core, back := StrippedRight(StripLeft(raw));
    dots := StrippedDots(Lower(core));
  }

  lemma {:induction false} StrippedLeft(s: string) returns (front: string)
    ensures s == front + StripLeft(s) && forall i :: 0 <= i < |front| ==> IsSpace(front[i])
    ensures StripLeft(s) != "" ==> !IsSpace(StripLeft(s)[0])
  {
    if s != "" && IsSpace(s[0]) {
      var more := StrippedLeft(s[1..]);
      front := [s[0]] + more;
      assert s == [s[0]] + s[1..];
    } else {
      front := "";
    }
  }

  lemma {:induction false} StrippedRight(s: string) returns (front: string, back: string)
    ensures front == StripRight(s) && s == front + back && forall i :: 0 <= i < |back| ==> IsSpace(back[i])
    ensures front != "" ==> !IsSpace(front[|front| - 1])
  {
    if s != "" && IsSpace(s[|s| - 1]) {
      var init, more, last := s[..|s| - 1], "", [s[|s| - 1]];
      front, more := StrippedRight(init);
      back := more + last;
      assert s == init + last;
      Rejoined(front, more, last);
    } else {
      front, back := s, "";
      assert s + "" == s;
    }
  }

  lemma Rejoined(a: string, b: string, c: string)
    ensures (a + b) + c == a + (b + c)
  {
  }

  lemma {:induction false} StrippedDots(s: string) returns (dots: nat)
    ensures s == StripDots(s) + seq(dots, i => '.')
  {
    if s != "" && s[|s| - 1] == '.' {
      var fewer := StrippedDots(s[..|s| - 1]);
      dots := fewer + 1;
      assert s == s[..|s| - 1] + ".";
    } else {
      dots := 0;
    }
  }

  // ---------- the list ----------

  /** One value of the list. */
  function Extended(done: seq<string>, raw: string): Result<seq<string>, DomainError> {
    var value := Clean(raw);
    if value == "" then Success(done)
    else
      match Check(value)
      case Some(e) => Failure(e)
      case None => Success(if value in done then done else done + [value])
  }

  function Normalized(values: seq<string>): Result<seq<string>, DomainError> {
    if values == [] then Success([])
    else
      match Normalized(values[..|values| - 1])
      case Failure(e) => Failure(e)
      case Success(done) => Extended(done, values[|values| - 1])
  }

  /** A failure in a prefix is the failure of the whole list: the loop has already raised. */
  lemma {:induction false} FailureSticks(values: seq<string>, n: nat)
    requires n <= |values|
    requires Normalized(values[..n]).Failure?
    ensures Normalized(values) == Normalized(values[..n])
  {
    if n == |values| {
      assert values[..n] == values;
    } else {
      assert values[..|values| - 1][..n] == values[..n];
      FailureSticks(values[..|values| - 1], n);
    }
  }

  lemma NextValue(values: seq<string>, i: nat, done: seq<string>)
    requires i < |values| && Normalized(values[..i]) == Success(done)
    ensures var value, next := Clean(values[i]), Normalized(values[..i + 1]);
            && (value == "" ==> next == Success(done))
            && (value != "" && Check(value).Some? ==> next == Failure(Check(value).value))
            && (value != "" && Check(value).None? ==>
                next == Success(if value in done then done else done + [value]))
  {
    assert values[..i + 1][..i] == values[..i];
  }

  method NormalizeBlockedDomains(values: seq<string>) returns (r: Result<seq<string>, DomainError>)
    ensures r == Normalized(values)
  {
    var normalized: seq<string> := [];
    var seen: set<string> := {};
    for i := 0 to |values|
      invariant Normalized(values[..i]) == Success(normalized)
      invariant seen == set x | x in normalized
    {
      NextValue(values, i, normalized);
      var value := Clean(values[i]);
      if value == "" {
        continue;
      }
      match Check(value) {
        case Some(e) =>
          FailureSticks(values, i + 1);
          return Failure(e);
        case None =>
      }
      if value !in seen {
        seen := seen + {value};
        normalized := normalized + [value];
      }
    }
    assert values[..|values|] == values;
    return Success(normalized);
  }

  ghost predicate Distinct<T(!new)>(s: seq<T>) {
    forall i, j :: 0 <= i < j < |s| ==> s[i] != s[j]
  }

  predicate Acceptable(raw: string) {
    Clean(raw) == "" || Check(Clean(raw)).None?
  }

  /**
   What the list means, without the loop: it is refused exactly when some value is
   neither blank nor a domain, and otherwise holds each cleaned domain once.
   */
  lemma NormalizedMeaning(values: seq<string>)
    ensures Normalized(values).Success? <==> forall raw :: raw in values ==> Acceptable(raw)
    ensures Normalized(values).Success? ==>
              && Distinct(Normalized(values).value)
              && forall d :: d in Normalized(values).value <==>
                             d != "" && exists raw :: raw in values && Clean(raw) == d
  {
    NormalizedAccepts(values);
    if Normalized(values).Success? {
      NormalizedIsDistinct(values);
      forall d
        ensures d in Normalized(values).value <==> d != "" && exists raw :: raw in values && Clean(raw) == d
      {
        NormalizedHolds(values, d);
      }
    }
  }

  lemma ExtendedMeaning(done: seq<string>, raw: string)
    ensures Extended(done, raw).Success? <==> Acceptable(raw)
    ensures Extended(done, raw).Success? && Distinct(done) ==> Distinct(Extended(done, raw).value)
    ensures Extended(done, raw).Success? ==>
              forall d :: d in Extended(done, raw).value <==> d in done || (d != "" && d == Clean(raw))
  {
  }

  lemma LastIsMember(values: seq<string>)
    requires values != []
    ensures forall raw :: raw in values <==> raw in values[..|values| - 1] || raw == values[|values| - 1]
  {
    assert values == values[..|values| - 1] + [values[|values| - 1]];
  }

  lemma LastIsChecked(values: seq<string>)
    requires values != []
    ensures Normalized(values).Success? <==>
            Normalized(values[..|values| - 1]).Success? && Acceptable(values[|values| - 1])
  {
    var init := values[..|values| - 1];
    if Normalized(init).Success? {
      ExtendedMeaning(Normalized(init).value, values[|values| - 1]);
    }
  }

  lemma {:induction false} NormalizedAccepts(values: seq<string>)
    ensures Normalized(values).Success? <==> forall raw :: raw in values ==> Acceptable(raw)
  {
    if values != [] {
      var init, last := values[..|values| - 1], values[|values| - 1];
      NormalizedAccepts(init);
      LastIsChecked(values);
      LastIsMember(values);
    }
  }

  lemma {:induction false} NormalizedIsDistinct(values: seq<string>)
    requires Normalized(values).Success?
    ensures Distinct(Normalized(values).value)
  {
    if values != [] {
      var init := values[..|values| - 1];
      assert Normalized(init).Success?;
      NormalizedIsDistinct(init);
      ExtendedMeaning(Normalized(init).value, values[|values| - 1]);
    }
  }

  lemma {:induction false} NormalizedHolds(values: seq<string>, d: string)
    requires Normalized(values).Success?
    ensures d in Normalized(values).value <==> d != "" && exists raw :: raw in values && Clean(raw) == d
  {
    if values != [] {
      var init, last := values[..|values| - 1], values[|values| - 1];
      NormalizedHolds(init, d);
      ExtendedMeaning(Normalized(init).value, last);
      LastIsMember(values);
    }
  }

  lemma {:induction false} StripLeftNoSpace(s: string)
    requires NoSpace(s)
    ensures Strip(s) == s
  {
    assert StripLeft(s) == s;
  }

  /** A value that passed the checks is left alone by a second pass. */
  lemma CleanIsStable(raw: string)
    requires Clean(raw) != "" && Check(Clean(raw)).None?
    ensures Clean(Clean(raw)) == Clean(raw)
  {
    var value := Clean(raw);
    assert NoSpace(value);
    StripLeftNoSpace(value);
    assert value <= Lower(Strip(raw));
    assert Lower(value) == value;
  }

  /** Normalising what has been normalised changes nothing and is never refused. */
  lemma {:induction false} NormalizeIdempotent(values: seq<string>)
    requires Normalized(values).Success?
    ensures Normalized(Normalized(values).value) == Normalized(values)
  {
    NormalizedMeaning(values);
    var stored := Normalized(values).value;
    forall d | d in stored
      ensures Clean(d) == d && d != "" && Check(d).None?
    {
      var raw :| raw in values && Clean(raw) == d;
      CleanIsStable(raw);
    }
    CleanDistinctIsFixed(stored);
  }

  lemma {:induction false} CleanDistinctIsFixed(stored: seq<string>)
    requires Distinct(stored)
    requires forall d :: d in stored ==> Clean(d) == d && d != "" && Check(d).None?
    ensures Normalized(stored) == Success(stored)
  {
    if stored != [] {
      var init, last := stored[..|stored| - 1], stored[|stored| - 1];
      assert stored == init + [last];
      assert forall d :: d in init ==> d in stored;
      CleanDistinctIsFixed(init);
      assert last !in init;
    }
  }

  // ---------- matchers ----------

  /** The fragment of regular expressions that the matchers use; `Matches` is an anchored match. */
  datatype Regexp =
    | Literal(text: string)
    | AnyChar
    | Concat(left: Regexp, right: Regexp)
    | OneOrMore(body: Regexp)
    | Optional(inner: Regexp)

  ghost predicate Matches(r: Regexp, s: string)
    decreases r, |s|
  {
    match r
    case Literal(text) => s == text
    case AnyChar => |s| == 1 && s[0] != '\n'
    case Concat(a, b) => exists k :: 0 <= k <= |s| && Matches(a, s[..k]) && Matches(b, s[k..])
    case OneOrMore(body) =>
      Matches(body, s) || exists k :: 0 < k < |s| && Matches(body, s[..k]) && Matches(r, s[k..])
    case Optional(inner) => s == "" || Matches(inner, s)
  }

  /** `^(.+\.)?<escaped domain>$` */
  function DomainMatcher(domain: string): Regexp {
    Concat(Optional(Concat(OneOrMore(AnyChar), Literal("."))), Literal(domain))
  }

  function BlockedDomainMatchers(values: seq<string>): Result<seq<Regexp>, DomainError> {
    match Normalized(values)
    case Failure(e) => Failure(e)
    case Success(domains) => Success(seq(|domains|, i requires 0 <= i < |domains| => DomainMatcher(domains[i])))
  }

  /** The host is the domain itself or lies under it at a label boundary. */
  ghost predicate UnderDomain(host: string, domain: string) {
    || host == domain
    || exists sub: string :: sub != "" && '\n' !in sub && host == sub + "." + domain
  }

  lemma {:induction false} AnyRunMatches(s: string)
    ensures Matches(OneOrMore(AnyChar), s) <==> s != "" && '\n' !in s
    decreases |s|
  {
    var plus := OneOrMore(AnyChar);
    if |s| > 1 {
      AnyRunMatches(s[1..]);
      assert s[..1] + s[1..] == s;
      if s[0] != '\n' && '\n' !in s[1..] {
        assert Matches(AnyChar, s[..1]) && Matches(plus, s[1..]);
      }
      if Matches(plus, s) {
        assert exists k :: 0 < k < |s| && Matches(AnyChar, s[..k]) && Matches(plus, s[k..]) by {
          assert !Matches(AnyChar, s);
        }
        var k :| 0 < k < |s| && Matches(AnyChar, s[..k]) && Matches(plus, s[k..]);
        assert k == 1;
      }
    }
  }

  /** A matcher accepts exactly the domain and the names under it. */
  lemma MatcherIsExact(domain: string, host: string)
    ensures Matches(DomainMatcher(domain), host) <==> UnderDomain(host, domain)
  {
    if Matches(DomainMatcher(domain), host) {
      MatchedIsUnder(domain, host);
    }
    if UnderDomain(host, domain) {
      UnderIsMatched(domain, host);
    }
  }

  lemma MatchedIsUnder(domain: string, host: string)
    requires Matches(DomainMatcher(domain), host)
    ensures UnderDomain(host, domain)
  {
    var prefix := Concat(OneOrMore(AnyChar), Literal("."));
    var k :| 0 <= k <= |host| && Matches(Optional(prefix), host[..k]) && Matches(Literal(domain), host[k..]);
    assert host == host[..k] + host[k..];
    if k > 0 {
      assert Matches(prefix, host[..k]);
      var sub := RunBeforeDot(host[..k]);
      assert host == sub + "." + domain;
    }
  }

  lemma RunBeforeDot(p: string) returns (sub: string)
    requires Matches(Concat(OneOrMore(AnyChar), Literal(".")), p)
    ensures sub != "" && '\n' !in sub && p == sub + "."
  {
    var j :| 0 <= j <= |p| && Matches(OneOrMore(AnyChar), p[..j]) && Matches(Literal("."), p[j..]);
    AnyRunMatches(p[..j]);
    sub := p[..j];
    assert p == p[..j] + p[j..];
  }

  lemma UnderIsMatched(domain: string, host: string)
    requires UnderDomain(host, domain)
    ensures Matches(DomainMatcher(domain), host)
  {
    var prefix := Concat(OneOrMore(AnyChar), Literal("."));
    if host == domain {
      assert host[..0] == "" && host[0..] == domain;
      assert Matches(Optional(prefix), host[..0]) && Matches(Literal(domain), host[0..]);
    } else {
      var sub: string :| sub != "" && '\n' !in sub && host == sub + "." + domain;
      var p := sub + ".";
      AnyRunMatches(sub);
      assert p[..|sub|] == sub && p[|sub|..] == ".";
      assert Matches(prefix, p);
      assert host[..|p|] == p && host[|p|..] == domain;
      assert Matches(Optional(prefix), host[..|p|]) && Matches(Literal(domain), host[|p|..]);
    }
  }
}
