/** Domain suspension lookup (packages/shared/domain-blocks/index.ts), uncached. */
module DomainBlocks {
  import opened Wrappers
  import opened Strings

  // ---------------------------------------------------------------- names

  /** `replace(/\.+$/, '')` */
  function StripDots(s: string): string {
    if s != "" && s[|s| - 1] == '.' then StripDots(s[..|s| - 1]) else s
  }

  function NormalizeDomain(domain: string): string {
    StripDots(Lower(TrimEnd(TrimStart(domain))))
  }

  /** `split('.')` */
  function Split(s: string): (labels: seq<string>)
    ensures labels != []
  {
    if s == "" then [""]
    else
      var rest := Split(s[1..]);
      if s[0] == '.' then [""] + rest else [[s[0]] + rest[0]] + rest[1..]
  }

  function Join(labels: seq<string>): string {
    if labels == [] then "" else if |labels| == 1 then labels[0] else labels[0] + ("." + Join(labels[1..]))
  }

  /** Most-specific to least-specific label suffixes. */
  function DomainVariants(domain: string): seq<string> {
    var normalized := NormalizeDomain(domain);
    if normalized == "" then []
    else
      var labels := Split(normalized);
      if "" in labels then [normalized]
      else seq(|labels|, i requires 0 <= i < |labels| => Join(labels[i..]))
  }

  // ---------------------------------------------------------------- the rule that decides

  /** No two dots meet and the last character is no dot. */
  ghost predicate NoGap(n: string) {
    && (n == "" || n[|n| - 1] != '.')
    && forall i :: 0 <= i < |n| - 1 ==> n[i] != '.' || n[i + 1] != '.'
  }

  /** No label is empty. */
  ghost predicate WellFormed(n: string) {
    n != "" && n[0] != '.' && NoGap(n)
  }

  /** `r` is the part of `n` after one of its dots. */
  ghost predicate AfterDot(r: string, n: string) {
    |r| < |n| && n[|n| - |r| - 1] == '.' && n[|n| - |r|..] == r
  }

  /** A rule for `r` covers the domain `n`: itself, or for a well-formed domain its subdomains. */
  ghost predicate Covers(r: string, n: string) {
    n != "" && (r == n || (WellFormed(n) && AfterDot(r, n)))
  }

  datatype Rule = Rule(severity: string, rejectMedia: bool, rejectReports: bool)

  /** The longest rule of the table covering `n` is `r`. */
  ghost predicate Decides(table: map<string, Rule>, n: string, r: string) {
    && r in table && Covers(r, n)
    && forall other :: other in table && Covers(other, n) ==> |other| <= |r|
  }

  /** What every caller wants to know of a domain in normal form. */
  ghost predicate Suspended(table: map<string, Rule>, n: string) {
    exists r :: Decides(table, n, r) && table[r].severity == "suspend"
  }

  /** Two covering rules of the same length are the same rule. */
  lemma CoversUnique(r: string, r': string, n: string)
    requires Covers(r, n) && Covers(r', n) && |r| == |r'|
    ensures r == r'
  {
  }

  /** At most one rule decides, and one does as soon as any rule covers the domain. */
  lemma DecidesUnique(table: map<string, Rule>, n: string, r: string, r': string)
    requires Decides(table, n, r) && Decides(table, n, r')
    ensures r == r'
  {
    CoversUnique(r, r', n);
  }

  // ---------------------------------------------------------------- variants are the covering names

  lemma JoinPrepend(c: char, labels: seq<string>)
    requires labels != []
    ensures Join([[c] + labels[0]] + labels[1..]) == [c] + Join(labels)
  {
    var longer := [[c] + labels[0]] + labels[1..];
    if |labels| > 1 {
      assert longer[1..] == labels[1..];
    }
  }

  lemma {:induction false} JoinSplit(s: string)
    ensures Join(Split(s)) == s
  {
    if s != "" {
      hide Join;
      var t := Split(s[1..]);
      JoinSplit(s[1..]);
      assert s == [s[0]] + s[1..];
      if s[0] == '.' {
      } else {
        JoinPrepend(s[0], t);
      }
    } else {
      assert Join([""]) == "";
    }
  }

  lemma {:induction false} EmptyLabels(s: string)
    ensures Split(s)[0] == "" <==> s == "" || s[0] == '.'
    ensures "" !in Split(s)[1..] <==> NoGap(s)
    ensures "" !in Split(s) <==> WellFormed(s)
  {
    var labels := Split(s);
    assert labels == [labels[0]] + labels[1..];
    if s != "" {
      var t := s[1..];
      EmptyLabels(t);
      assert NoGap(s) <==> NoGap(t) && (s[0] == '.' ==> t != "" && t[0] != '.') by {
        assert forall i :: 0 <= i < |t| ==> t[i] == s[i + 1];
        assert forall i :: 1 <= i < |s| ==> s[i] == t[i - 1];
      }
      assert s[0] == '.' ==> labels[1..] == Split(t);
    }
  }

  /** What remains from the i-th label on is what follows one of the dots. */
  lemma {:induction false} SuffixFollowsDot(s: string, i: nat)
    requires 1 <= i < |Split(s)|
    ensures AfterDot(Join(Split(s)[i..]), s)
    decreases |s|
  {
    if s != "" {
      var t := s[1..];
      if s[0] == '.' {
        assert Split(s)[i..] == Split(t)[i - 1..];
        if i == 1 {
          JoinSplit(t);
          assert Split(t)[0..] == Split(t);
        } else {
          SuffixFollowsDot(t, i - 1);
        }
      } else {
        assert Split(s)[i..] == Split(s)[1..][i - 1..] == Split(t)[1..][i - 1..] == Split(t)[i..];
        SuffixFollowsDot(t, i);
      }
    }
  }

  lemma {:induction false} DotStartsSuffix(s: string, r: string) returns (i: nat)
    requires AfterDot(r, s)
    ensures 1 <= i < |Split(s)| && Join(Split(s)[i..]) == r
    decreases |s|
  {
    var t := s[1..];
    if |r| == |t| {
      JoinSplit(t);
      i := 1;
      assert Split(s)[1..] == Split(t);
    } else {
      assert AfterDot(r, t);
      i := DotStartsSuffix(t, r);
      if s[0] == '.' {
        assert Split(s)[i + 1..] == Split(t)[i..];
        i := i + 1;
      } else {
        assert Split(s)[i..] == Split(s)[1..][i - 1..] == Split(t)[1..][i - 1..] == Split(t)[i..];
      }
    }
  }

  /** The names looked up for a domain are exactly the names of the rules that cover it. */
  lemma VariantsCover(domain: string, r: string)
    ensures r in DomainVariants(domain) <==> Covers(r, NormalizeDomain(domain))
  {
    var n := NormalizeDomain(domain);
    if n != "" {
      EmptyLabels(n);
      JoinSplit(n);
      var labels, variants := Split(n), DomainVariants(domain);
      if WellFormed(n) {
        assert labels[0..] == labels;
        if r in variants {
          var i :| 0 <= i < |labels| && r == Join(labels[i..]);
          if i > 0 { SuffixFollowsDot(n, i); }
        }
        if r == n {
          assert variants[0] == r;
        } else if AfterDot(r, n) {
          var i := DotStartsSuffix(n, r);
          assert variants[i] == r;
        }
      }
    }
  }

  lemma {:induction false} JoinShrinks(labels: seq<string>, i: nat, j: nat)
    requires i < j < |labels|
    ensures |Join(labels[j..])| < |Join(labels[i..])|
    decreases j - i
  {
    var rest := labels[i..];
    assert rest[1..] == labels[i + 1..];
    assert Join(rest) == rest[0] + "." + Join(rest[1..]);
    if i + 1 < j { JoinShrinks(labels, i + 1, j); }
  }

  /** Most specific first: each name looked up is longer than all those after it. */
  lemma VariantsShrink(domain: string, i: nat, j: nat)
    requires i < j < |DomainVariants(domain)|
    ensures |DomainVariants(domain)[j]| < |DomainVariants(domain)[i]|
  {
    JoinShrinks(Split(NormalizeDomain(domain)), i, j);
  }

  // ---------------------------------------------------------------- normal forms

  ghost predicate WhiteFree(s: string) {
    forall i :: 0 <= i < |s| ==> !IsWhite(s[i])
  }

  predicate EndsInDot(s: string) {
    s != "" && s[|s| - 1] == '.'
  }

  lemma {:induction false} StripDotsFacts(s: string)
    ensures StripDots(s) <= s
    ensures !EndsInDot(StripDots(s))
    ensures !EndsInDot(s) ==> StripDots(s) == s
  {
    if EndsInDot(s) { StripDotsFacts(s[..|s| - 1]); }
  }

  /** A name without white space is brought to normal form in one go; a second time changes nothing. */
  lemma NormalizeTwice(s: string)
    requires WhiteFree(s)
    ensures WhiteFree(NormalizeDomain(s))
    ensures NormalizeDomain(s) == StripDots(Lower(s))
    ensures NormalizeDomain(NormalizeDomain(s)) == NormalizeDomain(s)
  {
    var n := NormalizeDomain(s);
    assert TrimStart(s) == s && TrimEnd(s) == s;
    StripDotsFacts(Lower(s));
    StripDotsFacts(n);
    assert WhiteFree(Lower(s));
    assert TrimStart(n) == n && TrimEnd(n) == n;
    assert Lower(n) == n;
  }

  /** A lower-case name without white space is in normal form unless it ends in a dot. */
  lemma NormalForm(s: string)
    requires WhiteFree(s) && Lower(s) == s
    ensures NormalizeDomain(s) == s <==> !EndsInDot(s)
  {
    NormalizeTwice(s);
    StripDotsFacts(s);
  }

  ghost predicate AllWhite(s: string) {
    forall i :: 0 <= i < |s| ==> IsWhite(s[i])
  }

  lemma {:induction false} TrimsStart(before: string, s: string)
    requires AllWhite(before)
    ensures TrimStart(before + s) == TrimStart(s)
  {
    if before == "" {
      assert before + s == s;
    } else {
      assert (before + s)[0] == before[0] && (before + s)[1..] == before[1..] + s;
      TrimsStart(before[1..], s);
    }
  }

  lemma {:induction false} TrimsEnd(s: string, after: string)
    requires AllWhite(after)
    ensures TrimEnd(s + after) == TrimEnd(s)
  {
    if after == "" {
      assert s + after == s;
    } else {
      var t := s + after;
      assert t[|t| - 1] == after[|after| - 1] && t[..|t| - 1] == s + after[..|after| - 1];
      TrimsEnd(s, after[..|after| - 1]);
    }
  }

  /** White space around a name, its case and dots behind it make no difference: any such name normalises to it. */
  lemma NormalizeStrips(before: string, name: string, dots: string, after: string)
    requires AllWhite(before) && AllWhite(after) && name != "" && WhiteFree(name) && !EndsInDot(name)
    requires forall i :: 0 <= i < |dots| ==> dots[i] == '.'
    ensures NormalizeDomain(before + (name + dots + after)) == Lower(name)
  {
    var s := name + dots;
    assert WhiteFree(s) && s[0] == name[0];
    TrimsStart(before, s + after);
    assert (s + after)[0] == name[0] && TrimStart(s + after) == s + after;
    TrimsEnd(s, after);
    assert TrimEnd(s) == s;
    assert Lower(s) == Lower(name) + dots;
    StripsDots(Lower(name), dots);
  }

  lemma {:induction false} StripsDots(s: string, dots: string)
    requires !EndsInDot(s) && forall i :: 0 <= i < |dots| ==> dots[i] == '.'
    ensures StripDots(s + dots) == s
  {
    if dots == "" {
      assert s + dots == s;
    } else {
      assert (s + dots)[..|s + dots| - 1] == s + dots[..|dots| - 1];
      StripsDots(s, dots[..|dots| - 1]);
    }
  }

  /** A rule suspends its domain and its subdomains, but for those a more specific rule decides, whatever that says. */
  lemma MoreSpecificRuleWins(first: string, parent: string, severity: string)
    requires first != "" && '.' !in first && WellFormed(parent) && severity != "suspend"
    ensures
      var sub := first + "." + parent;
      && Suspended(map[parent := Rule("suspend", false, false)], parent)
      && Suspended(map[parent := Rule("suspend", false, false)], sub)
      && !Suspended(map[parent := Rule("suspend", false, false), sub := Rule(severity, false, false)], sub)
      && !Suspended(map[sub := Rule("suspend", false, false)], parent)
  {
    var sub := first + "." + parent;
    SubdomainCovered(first, parent);
    var one := map[parent := Rule("suspend", false, false)];
    var two := map[parent := Rule("suspend", false, false), sub := Rule(severity, false, false)];
    var other := map[sub := Rule("suspend", false, false)];
    hide WellFormed, AfterDot;
    assert Covers(parent, parent);
    assert Decides(one, parent, parent) && Decides(one, sub, parent);
    assert Decides(two, sub, sub);
    forall r | Decides(two, sub, r) ensures two[r].severity != "suspend" {
      DecidesUnique(two, sub, r, sub);
    }
    forall r ensures !Decides(other, parent, r) {
    }
  }

  lemma SubdomainCovered(first: string, parent: string)
    requires first != "" && '.' !in first && WellFormed(parent)
    ensures var sub := first + "." + parent; sub != parent && Covers(parent, sub) && Covers(sub, sub) && !Covers(sub, parent)
  {
    var sub := first + "." + parent;
    assert sub[|sub| - |parent|..] == parent && sub[|sub| - |parent| - 1] == '.';
    assert sub[0] == first[0] && sub[|sub| - 1] == parent[|parent| - 1];
    forall i | 0 <= i < |sub| - 1 ensures sub[i] != '.' || sub[i + 1] != '.' {
      if i < |first| { assert sub[i] == first[i]; }
      else if i == |first| { assert sub[i + 1] == parent[0]; }
      else { assert sub[i] == parent[i - |first| - 1] && sub[i + 1] == parent[i - |first|]; }
    }
  }

  // ---------------------------------------------------------------- one domain

  datatype BlockResult = BlockResult(
    blocked: bool, severity: Option<string>, rejectMedia: Option<bool>, rejectReports: Option<bool>)

  const NOT_BLOCKED := BlockResult(false, None, None, None)

  function FromRule(rule: Rule): BlockResult {
    BlockResult(rule.severity == "suspend", Some(rule.severity), Some(rule.rejectMedia), Some(rule.rejectReports))
  }

  lemma {:induction false} LongestExists(names: set<string>) returns (r: string)
    requires names != {}
    ensures r in names && forall other :: other in names ==> |other| <= |r|
  {
    r :| r in names;
    if names != {r} {
      var q := LongestExists(names - {r});
      if |q| > |r| { r := q; }
      assert forall other :: other in names ==> other in names - {r} || other == r || |other| <= |r|;
    }
  }

  lemma LookupDecides(table: map<string, Rule>, domain: string, r: string)
    ensures
      (r in table && r in DomainVariants(domain)
       && forall other :: other in table && other in DomainVariants(domain) ==> |other| <= |r|)
      <==> Decides(table, NormalizeDomain(domain), r)
  {
    forall name ensures name in DomainVariants(domain) <==> Covers(name, NormalizeDomain(domain)) {
      VariantsCover(domain, name);
    }
  }

  /** `isDomainBlocked` without its cache: the rule with the longest covering name decides. */
  method IsDomainBlocked(table: map<string, Rule>, domain: string) returns (result: BlockResult)
    ensures forall r :: Decides(table, NormalizeDomain(NormalizeDomain(domain)), r) ==> result == FromRule(table[r])
    ensures
      (forall r :: !Decides(table, NormalizeDomain(NormalizeDomain(domain)), r)) ==> result == NOT_BLOCKED
    ensures result.blocked <==> Suspended(table, NormalizeDomain(NormalizeDomain(domain)))
  {
    var lowerDomain := NormalizeDomain(domain);
    if domain == "" || lowerDomain == "" {
      assert NormalizeDomain(lowerDomain) == "";
      return NOT_BLOCKED;
    }
    var variants := DomainVariants(lowerDomain);
    ghost var n := NormalizeDomain(lowerDomain);
    var rows := set r | r in table && r in variants;
    forall r ensures r in rows && (forall other :: other in rows ==> |other| <= |r|) <==> Decides(table, n, r) {
      LookupDecides(table, lowerDomain, r);
    }
    if rows == {} { return NOT_BLOCKED; }
    ghost var longest := LongestExists(rows);
    var row :| row in rows && forall other :: other in rows ==> |other| <= |row|;
    assert Decides(table, n, row);
    forall r | Decides(table, n, r) ensures r == row { DecidesUnique(table, n, r, row); }
    result := FromRule(table[row]);
  }

  // ---------------------------------------------------------------- many domains in batches

  const BATCH_SIZE := 100

  /** Rule names hold no white space; they need not be in normal form. */
  ghost predicate WhiteFreeTable(table: map<string, Rule>) {
    forall r :: r in table ==> WhiteFree(r)
  }

  /** Lower-case, without a dot at the end. */
  ghost predicate Undotted(name: string) {
    Lower(name) == name && !EndsInDot(name)
  }

  lemma NormalFormsAreUndotted(domain: string)
    ensures Undotted(NormalizeDomain(domain))
  {
    var s := Lower(TrimEnd(TrimStart(domain)));
    StripDotsFacts(s);
    assert Lower(s) == s;
    var n := NormalizeDomain(domain);
    assert forall i :: 0 <= i < |n| ==> n[i] == s[i] == LowerChar(s[i]);
  }

  lemma SuffixIsUndotted(n: string, r: string)
    requires Undotted(n) && |r| <= |n| && n[|n| - |r|..] == r
    ensures Undotted(r)
  {
    assert forall i :: 0 <= i < |r| ==> r[i] == n[|n| - |r| + i] == Lower(n)[|n| - |r| + i];
  }

  /** Every name looked up is lower-case without a dot at the end. */
  lemma VariantsAreUndotted(domain: string, v: string)
    requires v in DomainVariants(domain)
    ensures Undotted(v)
  {
    hide DomainVariants, Undotted, WellFormed, NormalizeDomain;
    VariantsCover(domain, v);
    NormalFormsAreUndotted(domain);
    SuffixIsUndotted(NormalizeDomain(domain), v);
  }

  /** A rule stored with a dot at the end, or with capitals, never takes effect. */
  lemma DottedRuleIsIdle(table: map<string, Rule>, r: string, domain: string)
    requires !Undotted(r)
    ensures !Covers(r, NormalizeDomain(domain)) && !Decides(table, NormalizeDomain(domain), r)
  {
    VariantsCover(domain, r);
    if r in DomainVariants(domain) { VariantsAreUndotted(domain, r); }
  }

  /** A name that does not begin with white space is the normal form of the name with a dot added. */
  lemma DottedReaches(r: string)
    requires r != "" && !IsWhite(r[0]) && Undotted(r)
    ensures NormalizeDomain(r + ".") == r
  {
    var s := r + ".";
    assert TrimStart(s) == s && TrimEnd(s) == s;
    assert Lower(s) == s by {
      forall i | 0 <= i < |r| ensures LowerChar(s[i]) == s[i] { assert Lower(r)[i] == r[i]; }
    }
    assert s[..|s| - 1] == r;
    StripDotsFacts(r);
  }

  /**
   * When a stored rule takes effect. Names are trimmed and lower-cased when they are stored, so among those it
   * does for some domain exactly when its name does not end in a dot.
   */
  lemma RuleTakesEffectIff(table: map<string, Rule>, r: string)
    requires r in table && r != "" && !IsWhite(r[0])
    ensures (exists domain :: Decides(table, NormalizeDomain(domain), r)) <==> Undotted(r)
  {
    hide NormalizeDomain, Undotted;
    if domain :| Decides(table, NormalizeDomain(domain), r) {
      if !Undotted(r) { DottedRuleIsIdle(table, r, domain); }
    }
    if Undotted(r) {
      DottedReaches(r);
      assert Decides(table, NormalizeDomain(r + "."), r);
    }
  }

  /** What a lookup of many domains must answer: the normal forms of those whose deciding rule suspends. */
  ghost function SuspendedAmong(table: map<string, Rule>, domains: set<string>): set<string> {
    set d | d in domains && Suspended(table, NormalizeDomain(NormalizeDomain(d))) :: NormalizeDomain(d)
  }

  /** The rules found under the names asked for are stored in normal form. */
  ghost predicate NormalRules(table: map<string, Rule>, names: seq<string>) {
    forall v :: v in names && v in table ==> NormalizeDomain(v) == v
  }

  /** The same of every name looked up for the domains. */
  ghost predicate PlainLookup(table: map<string, Rule>, domains: seq<string>) {
    forall d, v :: d in domains && v in DomainVariants(NormalizeDomain(d)) && v in table ==> NormalizeDomain(v) == v
  }

  /** Without white space in the domains, or without any in the rule names, lookups are plain. */
  lemma PlainWithoutWhiteSpace(table: map<string, Rule>, domains: seq<string>)
    requires WhiteFreeTable(table) || forall d :: d in domains ==> WhiteFree(d)
    ensures PlainLookup(table, domains)
  {
    forall d, v | d in domains && v in DomainVariants(NormalizeDomain(d)) && v in table ensures NormalizeDomain(v) == v {
      VariantsAreUndotted(NormalizeDomain(d), v);
      if WhiteFree(d) { VariantsAreWhiteFree(d, v); }
      UndottedIsNormal(v);
    }
  }

  lemma VariantsAreWhiteFree(d: string, v: string)
    requires WhiteFree(d) && v in DomainVariants(NormalizeDomain(d))
    ensures WhiteFree(v)
  {
    hide DomainVariants, WellFormed;
    NormalizeTwice(d);
    VariantsCover(NormalizeDomain(d), v);
    var n := NormalizeDomain(d);
    assert v == n[|n| - |v|..];
    assert forall i :: 0 <= i < |v| ==> v[i] == n[|n| - |v| + i];
  }

  /** The rows fetched so far: those of `table` whose name is among `asked`. */
  ghost predicate Fetched(table: map<string, Rule>, asked: set<string>, rules: map<string, string>) {
    && (forall r :: r in rules <==> r in table && r in asked)
    && forall r :: r in rules ==> rules[r] == table[r].severity
  }

  lemma UndottedIsNormal(name: string)
    requires WhiteFree(name) && Undotted(name)
    ensures NormalizeDomain(name) == name
  {
    NormalForm(name);
  }

  /** One query of the batch loop, its rows stored one by one in any order. */
  method FetchBatch(table: map<string, Rule>, batch: seq<string>, rules: map<string, string>,
                    ghost asked: set<string>)
    returns (more: map<string, string>)
    requires |batch| <= BATCH_SIZE
    ensures NormalRules(table, batch) && Fetched(table, asked, rules) ==>
              Fetched(table, asked + (set v | v in batch), more)
  {
    hide NormalizeDomain;
    more := rules;
    var rows := set r | r in table && r in batch;
    ghost var all, done := rows, {};
    ghost var plain := NormalRules(table, batch) && Fetched(table, asked, rules);
    while rows != {}
      invariant rows + done == all
      invariant plain ==> Fetched(table, asked + done, more)
      decreases rows
    {
      var row :| row in rows;
      more := more[NormalizeDomain(row) := table[row].severity];
      rows, done := rows - {row}, done + {row};
    }
  }

  /** All the queries: how the names fall into batches does not matter. */
  method FetchRules(table: map<string, Rule>, variants: seq<string>) returns (rules: map<string, string>)
    ensures NormalRules(table, variants) ==> Fetched(table, (set v | v in variants), rules)
  {
    rules := map[];
    var offset := 0;
    ghost var asked: set<string> := {};
    while offset < |variants|
      invariant 0 <= offset
      invariant offset <= |variants| ==> asked == set v | v in variants[..offset]
      invariant offset >= |variants| ==> asked == set v | v in variants
      invariant NormalRules(table, variants) ==> Fetched(table, asked, rules)
    {
      var end := if offset + BATCH_SIZE <= |variants| then offset + BATCH_SIZE else |variants|;
      var batch := variants[offset..end];
      assert variants[..end] == variants[..offset] + batch;
      rules := FetchBatch(table, batch, rules, asked);
      asked := asked + set v | v in batch;
      assert end == |variants| ==> variants[..end] == variants;
      offset := offset + BATCH_SIZE;
    }
  }

  /** The first name of the list that has a rule, if any, says whether the domain is suspended. */
  method FirstHit(table: map<string, Rule>, domain: string, variants: seq<string>, rules: map<string, string>,
                  ghost asked: set<string>)
    returns (hit: bool)
    requires variants == DomainVariants(domain)
    requires forall v :: v in variants ==> v in asked
    ensures Fetched(table, asked, rules) ==> (hit <==> Suspended(table, NormalizeDomain(domain)))
  {
    for i := 0 to |variants|
      invariant forall k :: 0 <= k < i ==> variants[k] !in rules
    {
      var variant := variants[i];
      if variant in rules {
        if Fetched(table, asked, rules) { FirstDecides(table, domain, rules, asked, i); }
        return rules[variant] == "suspend";
      }
    }
    ghost var n := NormalizeDomain(domain);
    if Fetched(table, asked, rules) {
      forall r ensures !Decides(table, n, r) { LookupDecides(table, domain, r); }
    }
    hit := false;
  }

  /** The first name with a rule is the longest one. */
  lemma FirstDecides(table: map<string, Rule>, domain: string, rules: map<string, string>, asked: set<string>, i: nat)
    requires Fetched(table, asked, rules) && i < |DomainVariants(domain)| && DomainVariants(domain)[i] in rules
    requires forall v :: v in DomainVariants(domain) ==> v in asked
    requires forall k :: 0 <= k < i ==> DomainVariants(domain)[k] !in rules
    ensures rules[DomainVariants(domain)[i]] == "suspend" <==> Suspended(table, NormalizeDomain(domain))
  {
    hide DomainVariants, NormalizeDomain;
    var variants := DomainVariants(domain);
    var variant, n := variants[i], NormalizeDomain(domain);
    forall other | other in table && other in variants ensures |other| <= |variant| {
      var k :| 0 <= k < |variants| && variants[k] == other;
      if k != i { VariantsShrink(domain, i, k); }
    }
    LookupDecides(table, domain, variant);
    forall r | Decides(table, n, r) ensures r == variant { DecidesUnique(table, n, r, variant); }
  }

  /** The distinct non-empty normal forms. */
  method NormalizeAll(domains: seq<string>) returns (normalized: seq<string>)
    ensures forall n :: n in normalized <==> n != "" && exists d :: d in domains && n == NormalizeDomain(d)
  {
    normalized := [];
    for i := 0 to |domains|
      invariant forall n :: n in normalized <==> n != "" && exists d :: d in domains[..i] && n == NormalizeDomain(d)
    {
      var n := NormalizeDomain(domains[i]);
      ghost var before := normalized;
      if n != "" && n !in normalized { normalized := normalized + [n]; }
      assert domains[..i + 1] == domains[..i] + [domains[i]];
      forall m ensures m in normalized <==> m != "" && exists d :: d in domains[..i + 1] && m == NormalizeDomain(d) {
        assert m in normalized <==> m in before || (m == n && n != "");
        assert m == n ==> domains[i] in domains[..i + 1];
      }
    }
    assert domains[..|domains|] == domains;
  }

  method AddVariants(variants: seq<string>, known: seq<string>) returns (more: seq<string>)
    ensures forall v :: v in more <==> v in known || v in variants
  {
    more := known;
    for j := 0 to |variants|
      invariant forall v :: v in more <==> v in known || v in variants[..j]
    {
      if variants[j] !in more { more := more + [variants[j]]; }
      assert variants[..j + 1] == variants[..j] + [variants[j]];
    }
    assert variants[..|variants|] == variants;
  }

  /** Some domain of the list looks `v` up. */
  ghost predicate LookedUp(normalized: seq<string>, v: string) {
    exists n :: n in normalized && v in DomainVariants(n)
  }

  method CollectVariants(normalized: seq<string>)
    returns (variantsByDomain: map<string, seq<string>>, allVariants: seq<string>)
    ensures forall n :: n in normalized ==> n in variantsByDomain && variantsByDomain[n] == DomainVariants(n)
    ensures forall v :: v in allVariants <==> LookedUp(normalized, v)
  {
    hide DomainVariants;
    variantsByDomain, allVariants := map[], [];
    for i := 0 to |normalized|
      invariant forall n :: n in normalized[..i] ==> n in variantsByDomain && variantsByDomain[n] == DomainVariants(n)
      invariant forall v :: v in allVariants <==> LookedUp(normalized[..i], v)
    {
      var domain := normalized[i];
      var variants := DomainVariants(domain);
      variantsByDomain := variantsByDomain[domain := variants];
      ghost var before := allVariants;
      allVariants := AddVariants(variants, allVariants);
      assert normalized[..i + 1] == normalized[..i] + [domain];
      forall v ensures LookedUp(normalized[..i + 1], v) <==> LookedUp(normalized[..i], v) || v in variants {
        assert domain in normalized[..i + 1];
      }
    }
    assert normalized[..|normalized|] == normalized;
  }

  /**
   * `getSuspendedDomains`: when the rules looked up are stored in normal form, exactly the domains that
   * `IsDomainBlocked` reports as blocked, in normal form; and never anything but normal forms of the domains.
   */
  method GetSuspendedDomains(table: map<string, Rule>, domains: seq<string>) returns (suspended: set<string>)
    ensures PlainLookup(table, domains) ==> suspended == SuspendedAmong(table, set d | d in domains)
    ensures forall n :: n in suspended ==> exists d :: d in domains && n == NormalizeDomain(d)
  {
    hide NormalizeDomain, Suspended, SuspendedAmong, DomainVariants, Fetched, PlainLookup, NormalRules, LookedUp;
    var normalized := NormalizeAll(domains);
    var variantsByDomain, allVariants := CollectVariants(normalized);
    var rules := FetchRules(table, allVariants);
    ghost var plain := NormalRules(table, allVariants);
    suspended := {};
    for i := 0 to |normalized|
      invariant forall n :: n in suspended ==> n in normalized
      invariant plain ==> forall n :: n in suspended <==> n in normalized[..i] && Suspended(table, NormalizeDomain(n))
    {
      var domain := normalized[i];
      forall v | v in variantsByDomain[domain] ensures v in allVariants { LooksUp(normalized, domain, v); }
      var hit := FirstHit(table, domain, variantsByDomain[domain], rules, (set v | v in allVariants));
      if hit { suspended := suspended + {domain}; }
    }
    assert normalized[..|normalized|] == normalized;
    if plain { NormalizedSuspended(table, domains, normalized, suspended); }
    if PlainLookup(table, domains) { PlainRules(table, domains, normalized, allVariants); }
  }

  lemma LooksUp(normalized: seq<string>, n: string, v: string)
    requires n in normalized && v in DomainVariants(n)
    ensures LookedUp(normalized, v)
  {
  }

  lemma PlainRules(table: map<string, Rule>, domains: seq<string>, normalized: seq<string>, variants: seq<string>)
    requires PlainLookup(table, domains)
    requires forall n :: n in normalized <==> n != "" && exists d :: d in domains && n == NormalizeDomain(d)
    requires forall v :: v in variants <==> LookedUp(normalized, v)
    ensures NormalRules(table, variants)
  {
    hide NormalizeDomain, DomainVariants;
    forall v | v in variants && v in table ensures NormalizeDomain(v) == v {
      var n :| n in normalized && v in DomainVariants(n);
      var d :| d in domains && n == NormalizeDomain(d);
    }
  }

  lemma NormalizedSuspended(table: map<string, Rule>, domains: seq<string>, normalized: seq<string>,
                            suspended: set<string>)
    requires forall n :: n in normalized <==> n != "" && exists d :: d in domains && n == NormalizeDomain(d)
    requires forall n :: n in suspended <==> n in normalized && Suspended(table, NormalizeDomain(n))
    ensures suspended == SuspendedAmong(table, set d | d in domains)
  {
    var all := set d | d in domains;
    forall n ensures n in suspended <==> n in SuspendedAmong(table, all) {
      if n in suspended {
        var d :| d in domains && n == NormalizeDomain(d);
        assert d in all;
      }
      if n in SuspendedAmong(table, all) {
        var d :| d in all && Suspended(table, NormalizeDomain(NormalizeDomain(d))) && n == NormalizeDomain(d);
        assert NormalizeDomain(n) != "";
        assert NormalizeDomain("") == "";
      }
    }
  }

  /** Asking about one domain and asking about many at once agree, domain by domain. */
  method LookupsAgree(table: map<string, Rule>, domains: seq<string>, domain: string)
    returns (result: BlockResult, suspended: set<string>)
    requires domain in domains
    ensures PlainLookup(table, domains) ==> (result.blocked <==> NormalizeDomain(domain) in suspended)
    ensures WhiteFree(domain) ==> (result.blocked <==> Suspended(table, NormalizeDomain(domain)))
  {
    result := IsDomainBlocked(table, domain);
    suspended := GetSuspendedDomains(table, domains);
    assert domain in set d | d in domains;
    if WhiteFree(domain) { NormalizeTwice(domain); }
  }

  /**
   * Asked about names without white space, the answer holds just those of the names that are
   * suspended and in normal form, besides normal forms of names that are not.
   */
  lemma AnswerForNormalNames(table: map<string, Rule>, names: set<string>, name: string)
    requires name in names && forall other :: other in names ==> WhiteFree(other)
    ensures name in SuspendedAmong(table, names) <==> NormalizeDomain(name) == name && Suspended(table, name)
  {
    if name in SuspendedAmong(table, names) {
      var d :| d in names && Suspended(table, NormalizeDomain(NormalizeDomain(d))) && name == NormalizeDomain(d);
      NormalizeTwice(d);
    }
  }

  // ---------------------------------------------------------------- inboxes and the identities behind them

  /** A row of `accounts`, as far as delivery is concerned. */
  datatype Account = Account(domain: Option<string>, inboxUrl: Option<string>, sharedInboxUrl: Option<string>)

  /** A row of `relays`. */
  datatype Relay = Relay(inboxUrl: string, actorUri: Option<string>)

  /** The lower-cased host of a URL, or nothing when it does not parse. */
  type Host = string -> Option<string>

  datatype Identities = Identities(accounts: set<Account>, relays: set<Relay>)

  datatype RowValue = DomainValue(domain: string) | ActorUri(uri: string)

  /** One result row: an inbox and one identity behind it. */
  datatype Row = Row(inbox: string, value: RowValue)

  /** The identity a row names; a relay URI that does not parse names none. */
  function RowName(host: Host, row: Row): Option<string> {
    match row.value
    case DomainValue(domain) => Some(Lower(domain))
    case ActorUri(uri) => host(uri)
  }

  predicate AccountAt(a: Account, inbox: string) {
    a.domain.Some? && (a.inboxUrl == Some(inbox) || a.sharedInboxUrl == Some(inbox))
  }

  predicate RelayAt(r: Relay, inbox: string) {
    r.actorUri.Some? && r.inboxUrl == inbox
  }

  /** The query of one batch. */
  function RowsFor(tables: Identities, batch: seq<string>): set<Row> {
    (set a, inbox | a in tables.accounts && inbox in batch && AccountAt(a, inbox)
       :: Row(inbox, DomainValue(a.domain.value)))
    + (set r, inbox | r in tables.relays && inbox in batch && RelayAt(r, inbox)
         :: Row(inbox, ActorUri(r.actorUri.value)))
  }

  /** `name` is a known identity behind the inbox URL. */
  ghost predicate Behind(tables: Identities, host: Host, inbox: string, name: string) {
    || (exists a :: a in tables.accounts && AccountAt(a, inbox) && name == Lower(a.domain.value))
    || (exists r :: r in tables.relays && RelayAt(r, inbox) && host(r.actorUri.value) == Some(name))
  }

  /** The inboxes to stop delivering to: some identity behind them is suspended. */
  ghost predicate SuspendedInbox(table: map<string, Rule>, tables: Identities, host: Host, inbox: string) {
    exists name :: Behind(tables, host, inbox, name) && NormalizeDomain(name) == name && Suspended(table, name)
  }

  ghost predicate Known(identities: map<string, set<string>>, inbox: string, name: string) {
    inbox in identities && name in identities[inbox]
  }

  /** The identities collected are those behind the inboxes asked about. */
  ghost predicate Collected(tables: Identities, host: Host, asked: set<string>, identities: map<string, set<string>>) {
    forall inbox, name {:trigger Known(identities, inbox, name)} ::
      Known(identities, inbox, name) <==> inbox in asked && Behind(tables, host, inbox, name)
  }

  ghost predicate Named(host: Host, rows: set<Row>, inbox: string, name: string) {
    exists row :: row in rows && row.inbox == inbox && RowName(host, row) == Some(name)
  }

  lemma RowsAreBehind(tables: Identities, host: Host, batch: seq<string>, inbox: string, name: string)
    ensures Named(host, RowsFor(tables, batch), inbox, name) <==> inbox in batch && Behind(tables, host, inbox, name)
  {
    var rows := RowsFor(tables, batch);
    if inbox in batch && Behind(tables, host, inbox, name) {
      if a :| a in tables.accounts && AccountAt(a, inbox) && name == Lower(a.domain.value) {
        assert Row(inbox, DomainValue(a.domain.value)) in rows;
      } else {
        var r :| r in tables.relays && RelayAt(r, inbox) && host(r.actorUri.value) == Some(name);
        assert Row(inbox, ActorUri(r.actorUri.value)) in rows;
      }
    }
  }

  method CollectBatch(tables: Identities, host: Host, batch: seq<string>, identities: map<string, set<string>>,
                      ghost asked: set<string>)
    returns (more: map<string, set<string>>)
    requires Collected(tables, host, asked, identities)
    requires |batch| <= BATCH_SIZE
    ensures Collected(tables, host, asked + (set i | i in batch), more)
  {
    more := identities;
    var rows := RowsFor(tables, batch);
    ghost var all, done := rows, {};
    while rows != {}
      invariant rows + done == all
      invariant forall inbox, name {:trigger Known(more, inbox, name)} ::
        Known(more, inbox, name) <==> Known(identities, inbox, name) || Named(host, done, inbox, name)
      decreases rows
    {
      var row :| row in rows;
      ghost var before := more;
      var name := RowName(host, row);
      if name.Some? {
        var names := if row.inbox in more then more[row.inbox] else {};
        more := more[row.inbox := names + {name.value}];
      }
      rows, done := rows - {row}, done + {row};
      forall inbox, n ensures Known(more, inbox, n) <==> Known(before, inbox, n) || (row.inbox == inbox && name == Some(n)) {
      }
    }
    assert done == all;
    forall inbox, name
      ensures Known(more, inbox, name) <==> inbox in asked + (set i | i in batch) && Behind(tables, host, inbox, name)
    {
      RowsAreBehind(tables, host, batch, inbox, name);
    }
  }

  method CollectIdentities(tables: Identities, host: Host, inboxes: seq<string>)
    returns (identities: map<string, set<string>>)
    ensures Collected(tables, host, (set i | i in inboxes), identities)
  {
    identities := map[];
    var offset := 0;
    ghost var asked: set<string> := {};
    while offset < |inboxes|
      invariant 0 <= offset
      invariant offset <= |inboxes| ==> asked == set i | i in inboxes[..offset]
      invariant offset >= |inboxes| ==> asked == set i | i in inboxes
      invariant Collected(tables, host, asked, identities)
    {
      hide Collected;
      var end := if offset + BATCH_SIZE <= |inboxes| then offset + BATCH_SIZE else |inboxes|;
      var batch := inboxes[offset..end];
      assert inboxes[..end] == inboxes[..offset] + batch;
      identities := CollectBatch(tables, host, batch, identities, asked);
      asked := asked + set i | i in batch;
      assert end == |inboxes| ==> inboxes[..end] == inboxes;
      offset := offset + BATCH_SIZE;
    }
  }

  /** Every name collected. */
  function AllNames(identities: map<string, set<string>>): set<string> {
    set inbox, name | inbox in identities && name in identities[inbox] :: name
  }

  ghost predicate WhiteFreeIdentities(tables: Identities, host: Host) {
    forall inbox, name :: Behind(tables, host, inbox, name) ==> WhiteFree(name)
  }

  /** An identity behind the inbox is the normal form of a suspended identity behind some requested inbox. */
  ghost predicate MatchesSuspended(table: map<string, Rule>, tables: Identities, host: Host, asked: seq<string>, inbox: string) {
    exists name, other, i ::
      && Behind(tables, host, inbox, name) && i in asked && i != "" && Behind(tables, host, i, other)
      && NormalizeDomain(other) == name && Suspended(table, NormalizeDomain(NormalizeDomain(other)))
  }

  /**
   * `getSuspendedDeliveryInboxes`: with rule names free of white space, the requested inboxes behind which stands
   * the normal form of a suspended identity; with identities free of white space, exactly the requested inboxes
   * behind which stands an identity that is suspended and in normal form.
   */
  method GetSuspendedDeliveryInboxes(table: map<string, Rule>, tables: Identities, host: Host, inboxUrls: seq<string>)
    returns (suspendedInboxes: set<string>)
    ensures WhiteFreeTable(table) ==>
              suspendedInboxes
              == set i | i in inboxUrls && i != "" && MatchesSuspended(table, tables, host, inboxUrls, i)
    ensures WhiteFreeIdentities(tables, host) ==>
              suspendedInboxes
              == set i | i in inboxUrls && i != "" && SuspendedInbox(table, tables, host, i)
  {
    var inboxes := [];
    for k := 0 to |inboxUrls|
      invariant forall i :: i in inboxes <==> i != "" && i in inboxUrls[..k]
    {
      if inboxUrls[k] != "" && inboxUrls[k] !in inboxes { inboxes := inboxes + [inboxUrls[k]]; }
    }
    assert inboxUrls[..|inboxUrls|] == inboxUrls;
    var identities := CollectIdentities(tables, host, inboxes);
    var names := AllNames(identities);
    var list := Listed(names);
    var suspendedDomains := GetSuspendedDomains(table, list);
    hide SuspendedInbox, MatchesSuspended, WhiteFreeTable, WhiteFreeIdentities, Collected, SuspendedAmong, PlainLookup, AllNames, NormalizeDomain;
    suspendedInboxes := set i | i in identities && exists d :: d in identities[i] && d in suspendedDomains;
    assert names == set d | d in list;
    InboxesFound(table, tables, host, inboxUrls, inboxes, identities, list, suspendedDomains);
  }

  /** What the inboxes with a suspended identity among those collected are. */
  lemma InboxesFound(table: map<string, Rule>, tables: Identities, host: Host, inboxUrls: seq<string>, inboxes: seq<string>,
                     identities: map<string, set<string>>, list: seq<string>, suspendedDomains: set<string>)
    requires forall i :: i in inboxes <==> i != "" && i in inboxUrls
    requires Collected(tables, host, (set i | i in inboxes), identities) && AllNames(identities) == set d | d in list
    requires PlainLookup(table, list) ==> suspendedDomains == SuspendedAmong(table, set d | d in list)
    ensures var found := set i | i in identities && exists d :: d in identities[i] && d in suspendedDomains;
            && (WhiteFreeTable(table) ==>
                  found == set i | i in inboxUrls && i != "" && MatchesSuspended(table, tables, host, inboxUrls, i))
            && (WhiteFreeIdentities(tables, host) ==>
                  found == set i | i in inboxUrls && i != "" && SuspendedInbox(table, tables, host, i))
  {
    hide SuspendedInbox, MatchesSuspended, WhiteFreeTable, WhiteFreeIdentities, Collected, SuspendedAmong, PlainLookup, AllNames, NormalizeDomain;
    var asked := set u | u in inboxes;
    var found := set i | i in identities && exists d :: d in identities[i] && d in suspendedDomains;
    if WhiteFreeIdentities(tables, host) {
      CollectedAreWhiteFree(tables, host, asked, identities);
      PlainWithoutWhiteSpace(table, list);
      forall i ensures i in found <==> i in inboxes && SuspendedInbox(table, tables, host, i) {
        CollectedSuspended(table, tables, host, asked, identities, i);
      }
    }
    if WhiteFreeTable(table) {
      PlainWithoutWhiteSpace(table, list);
      forall i ensures i in found <==> i in inboxes && MatchesSuspended(table, tables, host, inboxUrls, i) {
        CollectedMatch(table, tables, host, inboxUrls, asked, identities, i);
      }
    }
  }

  lemma CollectedAreWhiteFree(tables: Identities, host: Host, asked: set<string>, identities: map<string, set<string>>)
    requires Collected(tables, host, asked, identities) && WhiteFreeIdentities(tables, host)
    ensures forall name :: name in AllNames(identities) ==> WhiteFree(name)
  {
    hide WhiteFree, Behind;
    forall name | name in AllNames(identities) ensures WhiteFree(name) {
      var i :| i in identities && name in identities[i];
      assert Known(identities, i, name);
    }
  }

  lemma CollectedMatch(table: map<string, Rule>, tables: Identities, host: Host, inboxUrls: seq<string>, asked: set<string>,
                       identities: map<string, set<string>>, inbox: string)
    requires Collected(tables, host, asked, identities) && forall i :: i in asked <==> i in inboxUrls && i != ""
    ensures (inbox in identities
             && exists d :: d in identities[inbox] && d in SuspendedAmong(table, AllNames(identities)))
            <==> inbox in asked && MatchesSuspended(table, tables, host, inboxUrls, inbox)
  {
    hide NormalizeDomain, Suspended, Behind;
    var names := AllNames(identities);
    if d :| inbox in identities && d in identities[inbox] && d in SuspendedAmong(table, names) {
      assert Known(identities, inbox, d);
      var other :| other in names && Suspended(table, NormalizeDomain(NormalizeDomain(other))) && d == NormalizeDomain(other);
      var i :| i in identities && other in identities[i];
      assert Known(identities, i, other);
    }
    if inbox in asked && MatchesSuspended(table, tables, host, inboxUrls, inbox) {
      var name, other, i :|
        && Behind(tables, host, inbox, name) && i in inboxUrls && i != "" && Behind(tables, host, i, other)
        && NormalizeDomain(other) == name && Suspended(table, NormalizeDomain(NormalizeDomain(other)));
      assert Known(identities, inbox, name) && Known(identities, i, other);
      assert other in names && name in SuspendedAmong(table, names);
    }
  }

  /** The elements of a set in some order. */
  method Listed(names: set<string>) returns (list: seq<string>)
    ensures forall n :: n in list <==> n in names
  {
    list := [];
    var rest := names;
    while rest != {}
      invariant rest <= names && forall n :: n in list <==> n in names - rest
      decreases rest
    {
      var n :| n in rest;
      list, rest := list + [n], rest - {n};
    }
  }

  lemma CollectedSuspended(table: map<string, Rule>, tables: Identities, host: Host, asked: set<string>,
                           identities: map<string, set<string>>, inbox: string)
    requires Collected(tables, host, asked, identities) && WhiteFreeIdentities(tables, host)
    ensures (inbox in identities
             && exists d :: d in identities[inbox] && d in SuspendedAmong(table, AllNames(identities)))
            <==> inbox in asked && SuspendedInbox(table, tables, host, inbox)
  {
    hide NormalizeDomain, Suspended, WhiteFree, SuspendedAmong, Behind;
    var names := AllNames(identities);
    CollectedAreWhiteFree(tables, host, asked, identities);
    forall d
      ensures Known(identities, inbox, d) && d in SuspendedAmong(table, names)
              <==> inbox in asked && Behind(tables, host, inbox, d) && NormalizeDomain(d) == d && Suspended(table, d)
    {
      assert Known(identities, inbox, d) <==> inbox in asked && Behind(tables, host, inbox, d);
      if Known(identities, inbox, d) {
        assert d in names;
        AnswerForNormalNames(table, names, d);
      }
    }
    if inbox in asked && SuspendedInbox(table, tables, host, inbox) {
      var d :| Behind(tables, host, inbox, d) && NormalizeDomain(d) == d && Suspended(table, d);
      assert Known(identities, inbox, d);
    }
    if d :| inbox in identities && d in identities[inbox] && d in SuspendedAmong(table, names) {
      assert Known(identities, inbox, d);
    }
  }
}
