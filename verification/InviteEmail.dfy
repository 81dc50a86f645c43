/** Validating an invite address, after trimming and lower-casing, against its grammar. */
module InviteEmail {
  import opened Wrappers

  const MAX_EMAIL_LEN := 254
  const MAX_LOCAL_LEN := 64
  const MAX_DOMAIN_LEN := 253
  const MAX_LABEL_LEN := 63

  datatype ValidatedInviteEmail = ValidatedInviteEmail(email: string, local: string, domain: string)

  // ----- Characters -----

  predicate LowerOrDigit(c: char) {
    'a' <= c <= 'z' || '0' <= c <= '9'
  }

  predicate AtomChar(c: char) {
    LowerOrDigit(c) || c in "!#$%&'*+/=?^_`{}~-"
  }

  predicate LabelChar(c: char) {
    LowerOrDigit(c) || c == '-'
  }

  /**
   Section 3.2.3 of RFC 5322 lets an atom have every printable ASCII character but the specials. Of these
   the check refuses capitals, which lower-casing has removed, and the vertical bar.
   */
  lemma AtomCharIsAtext(c: char)
    ensures AtomChar(c)
       <==> '!' <= c <= '~' && c !in "()<>[]:;@\\,.\"" && !('A' <= c <= 'Z') && c != '|'
  {
  }

  lemma LabelCharIsLetterDigitHyphen(c: char)
    ensures LabelChar(c) <==> 'a' <= c <= 'z' || '0' <= c <= '9' || c == '-'
  {
  }

  // ----- Dots -----

  function SplitDots(s: string): (parts: seq<string>)
    ensures parts != []
  {
    if s == "" then [""]
    else
      var rest := SplitDots(s[1..]);
      if s[0] == '.' then [""] + rest else [[s[0]] + rest[0]] + rest[1..]
  }

  function JoinDots(parts: seq<string>): string
    requires parts != []
  {
    if |parts| == 1 then parts[0] else parts[0] + "." + JoinDots(parts[1..])
  }

  lemma JoinLongerFirst(c: char, first: string, rest: seq<string>)
    ensures JoinDots([[c] + first] + rest) == [c] + JoinDots([first] + rest)
  {
    if rest != [] {
      assert ([[c] + first] + rest)[1..] == rest && ([first] + rest)[1..] == rest;
      assert ([c] + first) + "." + JoinDots(rest) == [c] + (first + "." + JoinDots(rest));
    }
  }

  lemma {:induction false} JoinUndoesSplit(s: string)
    ensures JoinDots(SplitDots(s)) == s
  {
    if s == "" {
    } else {
      var rest := SplitDots(s[1..]);
      JoinUndoesSplit(s[1..]);
      assert s == [s[0]] + s[1..];
      if s[0] == '.' {
        assert ([""] + rest)[1..] == rest;
      } else {
        JoinLongerFirst(s[0], rest[0], rest[1..]);
        assert rest == [rest[0]] + rest[1..];
      }
    }
  }

  lemma {:induction false} SplitOfFirst(part: string, rest: string)
    requires '.' !in part
    ensures SplitDots(part + "." + rest) == [part] + SplitDots(rest)
    ensures SplitDots(part) == [part]
  {
    if part == "" {
      assert "" + "." + rest == "." + rest && ("." + rest)[1..] == rest;
    } else {
      assert (part + "." + rest)[1..] == part[1..] + "." + rest;
      SplitOfFirst(part[1..], rest);
      assert part == [part[0]] + part[1..];
    }
  }

  lemma {:induction false} SplitUndoesJoin(parts: seq<string>)
    requires parts != [] && forall p | p in parts :: '.' !in p
    ensures SplitDots(JoinDots(parts)) == parts
  {
    if |parts| == 1 {
      SplitOfFirst(parts[0], "");
      assert parts == [parts[0]];
    } else {
      SplitUndoesJoin(parts[1..]);
      SplitOfFirst(parts[0], JoinDots(parts[1..]));
      assert parts == [parts[0]] + parts[1..];
    }
  }

  /** The characters of a text are its dots and the characters of its parts. */
  lemma {:induction false} CharsOfParts(s: string, c: char)
    requires c != '.'
    ensures c in s <==> exists p :: p in SplitDots(s) && c in p
  {
    if s == "" {
    } else {
      var rest := SplitDots(s[1..]);
      CharsOfParts(s[1..], c);
      assert rest == [rest[0]] + rest[1..];
      var parts := SplitDots(s);
      if s[0] == '.' {
        assert forall p :: p in parts <==> p == "" || p in rest;
      } else {
        assert parts[0] in parts;
        assert forall p :: p in rest[1..] ==> p in parts;
        assert forall p :: p in parts ==> p == parts[0] || p in rest[1..];
      }
    }
  }

  predicate HasDoubleDot(s: string) {
    exists i :: 0 <= i < |s| - 1 && s[i] == '.' && s[i + 1] == '.'
  }

  /** The three tests made before looking at characters or labels. */
  predicate DotsOk(s: string) {
    && (s != "" ==> s[0] != '.' && s[|s| - 1] != '.')
    && !HasDoubleDot(s)
  }

  ghost predicate NoEmptyPart(parts: seq<string>) {
    forall p | p in parts :: p != ""
  }

  lemma NoEmptyPartOfCons(p: string, rest: seq<string>)
    ensures NoEmptyPart([p] + rest) <==> p != "" && NoEmptyPart(rest)
  {
    assert p in [p] + rest;
    assert forall q :: q in rest ==> q in [p] + rest;
  }

  /** For a non-empty text the dot tests say exactly that no part is empty. */
  lemma {:induction false} DotsOkMeansNoEmptyPart(s: string)
    requires s != ""
    ensures DotsOk(s) <==> NoEmptyPart(SplitDots(s))
    decreases |s|, 1
  {
    var rest := SplitDots(s[1..]);
    var parts := SplitDots(s);
    if |s| == 1 {
      assert s[1..] == "" && rest == [""];
      assert parts == if s[0] == '.' then ["", ""] else [[s[0]] + ""];
      assert "" in ["", ""];
    } else {
      DotsOkMeansNoEmptyPart(s[1..]);
      if s[0] == '.' {
        assert "" in parts;
      } else if s[1] == '.' {
        assert s[1..][1..] == s[2..];
        assert rest == [""] + SplitDots(s[2..]) && rest[1..] == SplitDots(s[2..]);
        assert [s[0]] + rest[0] == [s[0]];
        assert parts == [[s[0]]] + SplitDots(s[2..]);
        DotAfterFirst(s);
      } else {
        assert rest[0] != "" by { FirstPartStarts(s[1..]); }
        DoubleDotLater(s);
        assert s[1..][|s| - 2] == s[|s| - 1] && s[1..][0] == s[1];
        assert rest == [rest[0]] + rest[1..] && parts == [[s[0]] + rest[0]] + rest[1..];
        NoEmptyPartOfCons(rest[0], rest[1..]);
        NoEmptyPartOfCons([s[0]] + rest[0], rest[1..]);
      }
    }
  }

  lemma FirstPartStarts(s: string)
    requires s != "" && s[0] != '.'
    ensures SplitDots(s)[0] != ""
  {
  }

  lemma DoubleDotLater(s: string)
    requires |s| >= 2 && !(s[0] == '.' && s[1] == '.')
    ensures HasDoubleDot(s) <==> HasDoubleDot(s[1..])
  {
    if i :| 0 <= i < |s| - 1 && s[i] == '.' && s[i + 1] == '.' {
      assert s[1..][i - 1] == '.' && s[1..][i - 1 + 1] == '.';
    }
    if i :| 0 <= i < |s[1..]| - 1 && s[1..][i] == '.' && s[1..][i + 1] == '.' {
      assert s[i + 1] == '.' && s[i + 1 + 1] == '.';
    }
  }

  /** The text x.rest: fine exactly when rest is, where rest may not be empty or start with a dot. */
  lemma DotAfterFirst(s: string)
    requires |s| >= 2 && s[0] != '.' && s[1] == '.'
    ensures DotsOk(s) <==> NoEmptyPart([[s[0]]] + SplitDots(s[2..]))
    decreases |s|, 0
  {
    var tail := s[2..];
    NoEmptyPartOfCons([s[0]], SplitDots(tail));
    if tail == "" {
      assert s[|s| - 1] == '.';
      assert "" in SplitDots(tail);
    } else {
      DotsOkMeansNoEmptyPart(tail);
      assert tail[|tail| - 1] == s[|s| - 1] && tail[0] == s[2];
      DoubleDotLater(s);
      if tail[0] == '.' {
        assert s[1] == '.' && s[1 + 1] == '.';
      } else {
        assert s[1..][1..] == tail && s[1..][1] == tail[0];
        DoubleDotLater(s[1..]);
      }
    }
  }

  // ----- Grammar -----

  ghost predicate Atom(a: string) {
    a != "" && forall c | c in a :: AtomChar(c)
  }

  predicate Label(l: string) {
    && 1 <= |l| <= MAX_LABEL_LEN
    && l[0] != '-' && l[|l| - 1] != '-'
    && forall c | c in l :: LabelChar(c)
  }

  /** Dot-separated atoms. */
  ghost predicate IsLocalPart(s: string) {
    exists atoms: seq<string> :: atoms != [] && (forall a | a in atoms :: Atom(a)) && s == JoinDots(atoms)
  }

  /** At least two dot-separated labels. */
  ghost predicate IsDomain(s: string) {
    exists labels: seq<string> :: |labels| >= 2 && (forall l | l in labels :: Label(l)) && s == JoinDots(labels)
  }

  // ----- The checks -----

  predicate IsValidEmailLocalpart(local: string) {
    DotsOk(local) && forall c | c in local :: AtomChar(c) || c == '.'
  }

  /** On non-empty texts the local-part check is the grammar. */
  lemma LocalpartIsExact(s: string)
    requires s != ""
    ensures IsValidEmailLocalpart(s) <==> IsLocalPart(s)
  {
    var parts := SplitDots(s);
    DotsOkMeansNoEmptyPart(s);
    forall c | c != '.' ensures c in s <==> exists p :: p in parts && c in p { CharsOfParts(s, c); }
    if IsValidEmailLocalpart(s) {
      PartsHaveNoDots(s);
      JoinUndoesSplit(s);
      forall p | p in parts ensures Atom(p) {
        forall c | c in p ensures AtomChar(c) { assert c != '.' && c in s; }
      }
    }
    if IsLocalPart(s) {
      var atoms: seq<string> :| atoms != [] && (forall a | a in atoms :: Atom(a)) && s == JoinDots(atoms);
      forall a | a in atoms ensures '.' !in a { assert !AtomChar('.'); }
      SplitUndoesJoin(atoms);
    }
  }

  lemma {:induction false} PartsHaveNoDots(s: string)
    ensures forall p | p in SplitDots(s) :: '.' !in p
  {
    if s == "" {
    } else {
      PartsHaveNoDots(s[1..]);
      var rest := SplitDots(s[1..]);
      assert rest == [rest[0]] + rest[1..];
    }
  }

  /** The label loop of the domain check, with its early return. */
  method CheckLabels(domain: string) returns (ok: bool, count: nat)
    ensures ok <==> forall l | l in SplitDots(domain) :: Label(l)
    ensures ok ==> count == |SplitDots(domain)|
  {
    var labels := SplitDots(domain);
    count := 0;
    for i := 0 to |labels|
      invariant count == i
      invariant forall k | 0 <= k < i :: Label(labels[k])
    {
      count := count + 1;
      var l := labels[i];
      if l == "" || |l| > MAX_LABEL_LEN || l[0] == '-' || l[|l| - 1] == '-' || !forall c | c in l :: LabelChar(c) {
        assert l in labels && !Label(l);
        return false, count;
      }
    }
    ok := true;
  }

  method IsValidEmailDomain(domain: string) returns (ok: bool)
    requires domain != ""
    ensures ok <==> IsDomain(domain)
  {
    DomainIsLabels(domain);
    LabelsImplyDots(domain);
    if !DotsOk(domain) {
      return false;
    }
    var labels, count := CheckLabels(domain);
    return labels && count >= 2;
  }

  lemma DomainIsLabels(s: string)
    ensures IsDomain(s) <==> |SplitDots(s)| >= 2 && forall l | l in SplitDots(s) :: Label(l)
  {
    JoinUndoesSplit(s);
    if IsDomain(s) {
      var labels: seq<string> :| |labels| >= 2 && (forall l | l in labels :: Label(l)) && s == JoinDots(labels);
      forall l | l in labels ensures '.' !in l { assert !LabelChar('.'); }
      SplitUndoesJoin(labels);
    }
  }

  /** The dot tests before the label loop reject nothing that the loop would accept. */
  lemma LabelsImplyDots(s: string)
    requires s != ""
    ensures (forall l | l in SplitDots(s) :: Label(l)) ==> DotsOk(s)
  {
    DotsOkMeansNoEmptyPart(s);
  }

  function CountAt(s: string): nat {
    if s == "" then 0 else (if s[0] == '@' then 1 else 0) + CountAt(s[1..])
  }

  lemma {:induction false} CountAtOfSum(a: string, b: string)
    ensures CountAt(a + b) == CountAt(a) + CountAt(b)
  {
    if a == "" {
      assert a + b == b;
    } else {
      assert (a + b)[1..] == a[1..] + b;
      CountAtOfSum(a[1..], b);
    }
  }

  lemma {:induction false} CountAtIsZero(s: string)
    ensures CountAt(s) == 0 <==> '@' !in s
  {
    if s == "" {
    } else {
      CountAtIsZero(s[1..]);
      assert s == [s[0]] + s[1..];
    }
  }

  /** Split at the first `@`. */
  function SplitOnce(s: string): (parts: (string, string))
    requires '@' in s
    ensures s == parts.0 + "@" + parts.1 && '@' !in parts.0
  {
    if s[0] == '@' then
      assert s == "" + "@" + s[1..];
      ("", s[1..])
    else
      assert s == [s[0]] + s[1..];
      var rest := SplitOnce(s[1..]);
      ([s[0]] + rest.0, rest.1)
  }

  /** The addresses that may be invited. */
  ghost predicate IsInviteEmail(e: string, local: string, domain: string) {
    && e == local + "@" + domain
    && IsLocalPart(local) && IsDomain(domain)
    && |local| <= MAX_LOCAL_LEN && |domain| <= MAX_DOMAIN_LEN && |e| <= MAX_EMAIL_LEN
  }

  /** The address grammar with its limits written out. */
  lemma InviteEmailLimits(e: string, local: string, domain: string)
    ensures IsInviteEmail(e, local, domain)
       <==> e == local + "@" + domain && IsLocalPart(local) && IsDomain(domain)
            && |local| <= 64 && |domain| <= 253 && |e| <= 254
    ensures Label(domain) <==> 1 <= |domain| <= 63 && domain[0] != '-' && domain[|domain| - 1] != '-'
                               && forall c | c in domain :: LabelChar(c)
  {
  }

  lemma GrammarHasOneAt(e: string, local: string, domain: string)
    requires IsInviteEmail(e, local, domain)
    ensures CountAt(e) == 1 && '@' in e && SplitOnce(e) == (local, domain) && local != "" && domain != ""
  {
    LocalHasNoAt(local);
    DomainHasNoAt(domain);
    CountAtOfSum(local + "@", domain);
    CountAtOfSum(local, "@");
    CountAtIsZero(local);
    CountAtIsZero(domain);
    assert e[|local|] == '@';
    var parts := SplitOnce(e);
    SameSplit(local, domain, parts.0, parts.1);
  }

  lemma SameSplit(a: string, b: string, c: string, d: string)
    requires a + "@" + b == c + "@" + d && '@' !in a && '@' !in c
    ensures a == c && b == d
  {
    var e := a + "@" + b;
    assert e[|a|] == '@' && e[|c|] == '@';
    assert e[..|a|] == a && e[..|c|] == c;
    assert e[|a| + 1..] == b && e[|c| + 1..] == d;
  }

  lemma LocalHasNoAt(local: string)
    requires IsLocalPart(local)
    ensures local != "" && '@' !in local
  {
    var atoms: seq<string> :| atoms != [] && (forall a | a in atoms :: Atom(a)) && local == JoinDots(atoms);
    forall a | a in atoms ensures '.' !in a { assert !AtomChar('.'); }
    SplitUndoesJoin(atoms);
    assert atoms[0] in atoms && Atom(atoms[0]);
    CharsOfParts(local, '@');
    assert !AtomChar('@');
  }

  lemma DomainHasNoAt(domain: string)
    requires IsDomain(domain)
    ensures domain != "" && '@' !in domain
  {
    DomainIsLabels(domain);
    CharsOfParts(domain, '@');
    assert !LabelChar('@');
  }

  /**
   The validator accepts exactly the normalised texts local@domain of the grammar, within the length
   limits, and returns the two parts.
   */
  method ValidateInviteEmail(email: string) returns (r: Option<ValidatedInviteEmail>)
    ensures r.Some? ==> r.value.email == email && IsInviteEmail(email, r.value.local, r.value.domain)
    ensures r.None? ==> !exists local, domain :: IsInviteEmail(email, local, domain)
  {
    forall local, domain | IsInviteEmail(email, local, domain)
      ensures CountAt(email) == 1 && '@' in email && SplitOnce(email) == (local, domain) && local != "" && domain != ""
    {
      GrammarHasOneAt(email, local, domain);
    }
    if email == "" || |email| > MAX_EMAIL_LEN {
      return None;
    }
    CountAtIsZero(email);
    if CountAt(email) != 1 {
      return None;
    }
    var (local, domain) := SplitOnce(email);
    if local == "" || domain == "" || |local| > MAX_LOCAL_LEN || |domain| > MAX_DOMAIN_LEN {
      return None;
    }
    LocalpartIsExact(local);
    if !IsValidEmailLocalpart(local) {
      return None;
    }
    var domainOk := IsValidEmailDomain(domain);
    if !domainOk {
      return None;
    }
    return Some(ValidatedInviteEmail(email, local, domain));
  }
}
