/** Repairing `\frac` arguments and extracting a boxed answer from a string. */
module LatexRepair {

  // ---------- Python's split ----------

  predicate OccursAt(s: string, sep: string, i: nat) {
    i + |sep| <= |s| && s[i..i + |sep|] == sep
  }

  ghost predicate Free(s: string, sep: string) {
    forall i: nat :: !OccursAt(s, sep, i)
  }

  /** The first occurrence from position i on; the length of the string if there is none. */
  function Find(s: string, sep: string, i: nat): (k: nat)
    requires i <= |s| && sep != ""
    ensures k == |s| || OccursAt(s, sep, k)
    ensures i <= k <= |s| && forall j: nat :: i <= j < k ==> !OccursAt(s, sep, j)
    decreases |s| - i
  {
    if i == |s| then |s|
    else if OccursAt(s, sep, i) then i
    else Find(s, sep, i + 1)
  }

  /** Leftmost, non-overlapping occurrences. */
  function Split(s: string, sep: string): (ps: seq<string>)
    requires sep != ""
    ensures ps != []
    decreases |s|
  {
    var k := Find(s, sep, 0);
    if k == |s| then [s] else [s[..k]] + Split(s[k + |sep|..], sep)
  }

  function Join(ps: seq<string>, sep: string): string
    requires ps != []
  {
    if |ps| == 1 then ps[0] else ps[0] + sep + Join(ps[1..], sep)
  }

  ghost predicate AllFree(ps: seq<string>, sep: string) {
    forall i :: 0 <= i < |ps| ==> Free(ps[i], sep)
  }

  /** The first character of the separator does not occur in it again, so occurrences never overlap. */
  predicate Unbordered(sep: string) {
    sep != "" && forall k :: 0 < k < |sep| ==> sep[k] != sep[0]
  }

  lemma PrefixFree(s: string, sep: string, k: nat)
    requires sep != "" && k <= |s| && forall j: nat :: j < k ==> !OccursAt(s, sep, j)
    ensures Free(s[..k], sep)
  {
    forall j: nat ensures !OccursAt(s[..k], sep, j) {
      if j + |sep| <= k {
        assert s[..k][j..j + |sep|] == s[j..j + |sep|];
        assert OccursAt(s, sep, j) <==> OccursAt(s[..k], sep, j);
      }
    }
  }

  lemma {:induction false} SplitJoin(s: string, sep: string)
    requires sep != ""
    ensures AllFree(Split(s, sep), sep) && Join(Split(s, sep), sep) == s
    decreases |s|
  {
    var k := Find(s, sep, 0);
    if k == |s| {
      assert s[..k] == s;
      PrefixFree(s, sep, k);
    } else {
      PrefixFree(s, sep, k);
      SplitJoin(s[k + |sep|..], sep);
      assert s == s[..k] + sep + s[k + |sep|..];
    }
  }

  /** The first occurrence in `p + sep + rest` is the one after p. */
  lemma FindAfter(p: string, sep: string, rest: string)
    requires Unbordered(sep) && Free(p, sep)
    ensures Find(p + sep + rest, sep, 0) == |p|
  {
    var s := p + sep + rest;
    assert s[|p|..|p| + |sep|] == sep;
    assert OccursAt(s, sep, |p|);
    forall j: nat | j < |p| ensures !OccursAt(s, sep, j) {
      if j + |sep| <= |p| {
        assert p[j..j + |sep|] == s[j..j + |sep|];
        assert OccursAt(p, sep, j) <==> OccursAt(s, sep, j);
      } else {
        NoOverlap(s, sep, j, |p|);
      }
    }
  }

  lemma NoOverlap(s: string, sep: string, j: nat, k: nat)
    requires Unbordered(sep) && OccursAt(s, sep, k) && j < k < j + |sep|
    ensures !OccursAt(s, sep, j)
  {
    assert s[k] == s[k..k + |sep|][0] == sep[0];
    if j + |sep| <= |s| {
      assert s[k] == s[j..j + |sep|][k - j];
    }
  }

  /** Splitting a join gives the pieces back. */
  lemma {:induction false} JoinSplit(ps: seq<string>, sep: string)
    requires ps != [] && Unbordered(sep) && AllFree(ps, sep)
    ensures Split(Join(ps, sep), sep) == ps
  {
    var s := Join(ps, sep);
    if |ps| == 1 {
      assert Find(s, sep, 0) == |s|;
    } else {
      var rest := Join(ps[1..], sep);
      assert AllFree(ps[1..], sep);
      JoinSplit(ps[1..], sep);
      FindAfter(ps[0], sep, rest);
      assert s == ps[0] + sep + rest;
      assert s[..|ps[0]|] == ps[0] && s[|ps[0]| + |sep|..] == rest;
    }
  }

  // ---------- \frac ----------

  const FRAC := "\\frac"

  predicate Repairable(sub: string) {
    sub != "" && (sub[0] == '{' || |sub| >= 2)
  }

  /** What follows one `\frac`: two single characters become two groups. */
  function Repaired(sub: string): string
    requires Repairable(sub)
  {
    if sub[0] == '{' then sub
    else if sub[1] != '{' then "{" + [sub[0]] + "}{" + [sub[1]] + "}" + sub[2..]
    else "{" + [sub[0]] + "}" + [sub[1]] + sub[2..]
  }

  predicate AllRepairable(subs: seq<string>) {
    forall i :: 0 <= i < |subs| ==> Repairable(subs[i])
  }

  function RepairAll(subs: seq<string>): (r: seq<string>)
    requires AllRepairable(subs)
    ensures |r| == |subs| && forall i :: 0 <= i < |r| ==> r[i] == Repaired(subs[i])
  {
    seq(|subs|, i requires 0 <= i < |subs| => Repaired(subs[i]))
  }

  /** The repaired string; one fraction that is too short leaves the whole string as it is. */
  function Fixed(s: string): string {
    var subs := Split(s, FRAC);
    if AllRepairable(subs[1..]) then Join([subs[0]] + RepairAll(subs[1..]), FRAC) else s
  }

  lemma {:induction false} JoinSnoc(ps: seq<string>, p: string, sep: string)
    requires ps != []
    ensures Join(ps + [p], sep) == Join(ps, sep) + sep + p
  {
    if |ps| > 1 {
      assert (ps + [p])[1..] == ps[1..] + [p];
      JoinSnoc(ps[1..], p, sep);
    }
  }

  /** One turn of the loop. */
  method AppendRepaired(before: string, sub: string) returns (newStr: string)
    requires Repairable(sub)
    ensures newStr == before + FRAC + Repaired(sub)
  {
    newStr := before + FRAC;
    if |sub| > 0 && sub[0] == '{' {
      newStr := newStr + sub;
      return;
    }
    var a, b, post := sub[0], sub[1], sub[2..];
    if b != '{' {
      if |sub| > 2 {
        newStr := newStr + ("{" + [a] + "}{" + [b] + "}" + post);
      } else {
        newStr := newStr + ("{" + [a] + "}{" + [b] + "}");
      }
    } else {
      if |sub| > 2 {
        newStr := newStr + ("{" + [a] + "}" + [b] + post);
      } else {
        newStr := newStr + ("{" + [a] + "}" + [b]);
      }
    }
  }

  /** `_fix_fracs` */
  method FixFracs(s: string) returns (r: string)
    ensures r == Fixed(s)
  {
    assert FRAC != "";
    hide *;
    var substrs := Split(s, FRAC);
    var newStr := substrs[0];
    ghost var done := [substrs[0]];
    JoinOne(newStr, FRAC);
    RepairedNone(substrs);
    for i := 0 to |substrs| - 1
      invariant RepairedTo(substrs, done, i) && newStr == Join(done, FRAC)
    {
      var sub := substrs[i + 1];
      if !Repairable(sub) {
        TooShort(s, i + 1);
        return s;
      }
      newStr := AppendRepaired(newStr, sub);
      RepairedNext(substrs, done, i);
      JoinSnoc(done, Repaired(sub), FRAC);
      done := done + [Repaired(sub)];
    }
    DoneIs(s, done);
    r := newStr;
  }

  /** The first pieces, repaired up to number i. */
  ghost predicate RepairedTo(subs: seq<string>, done: seq<string>, i: nat) {
    && |done| == i + 1 <= |subs| && done[0] == subs[0]
    && forall k :: 1 <= k <= i ==> Repairable(subs[k]) && done[k] == Repaired(subs[k])
  }

  lemma RepairedNext(subs: seq<string>, done: seq<string>, i: nat)
    requires RepairedTo(subs, done, i) && i + 1 < |subs| && Repairable(subs[i + 1])
    ensures done != [] && RepairedTo(subs, done + [Repaired(subs[i + 1])], i + 1)
  {}

  lemma RepairedNone(subs: seq<string>)
    requires subs != []
    ensures RepairedTo(subs, [subs[0]], 0)
  {}

  lemma DoneIs(s: string, done: seq<string>)
    requires RepairedTo(Split(s, FRAC), done, |Split(s, FRAC)| - 1)
    ensures done != [] && Fixed(s) == Join(done, FRAC)
  {
    var subs := Split(s, FRAC);
    assert done == [subs[0]] + RepairAll(subs[1..]);
  }

  lemma TooShort(s: string, i: nat)
    requires var subs := Split(s, FRAC); 1 <= i < |subs| && !Repairable(subs[i])
    ensures Fixed(s) == s
  {
    assert Split(s, FRAC)[1..][i - 1] == Split(s, FRAC)[i];
  }

  lemma JoinOne(p: string, sep: string)
    ensures Join([p], sep) == p
  {}

  lemma FixedIs(s: string)
    ensures var subs := Split(s, FRAC);
      Fixed(s) == if AllRepairable(subs[1..]) then Join([subs[0]] + RepairAll(subs[1..]), FRAC) else s
  {}

  lemma FracUnbordered()
    ensures Unbordered(FRAC)
  {}

  /** An occurrence lies within one of two strings that a brace separates. */
  lemma FreeAroundBrace(a: string, c: char, b: string, sep: string)
    requires Free(a, sep) && Free(b, sep) && sep != "" && c !in sep
    ensures Free(a + [c] + b, sep)
  {
    var s := a + [c] + b;
    forall j: nat ensures !OccursAt(s, sep, j) {
      if j + |sep| <= |a| {
        assert a[j..j + |sep|] == s[j..j + |sep|];
        assert OccursAt(a, sep, j) <==> OccursAt(s, sep, j);
      } else if j > |a| {
        var k := j - |a| - 1;
        if k + |sep| <= |b| {
          assert b[k..k + |sep|] == s[j..j + |sep|];
          assert OccursAt(b, sep, k) <==> OccursAt(s, sep, j);
        }
      } else if j + |sep| <= |s| {
        assert s[j..j + |sep|][|a| - j] == c;
      }
    }
  }

  lemma SubstringFree(s: string, sep: string, i: nat, k: nat)
    requires Free(s, sep) && i <= k <= |s|
    ensures Free(s[i..k], sep)
  {
    var t := s[i..k];
    forall j: nat ensures !OccursAt(t, sep, j) {
      var m := i + j;
      if j + |sep| <= |t| {
        var a, b := t[j..j + |sep|], s[m..m + |sep|];
        assert forall x :: 0 <= x < |sep| ==> a[x] == b[x];
        assert a == b;
        assert OccursAt(s, sep, m) <==> OccursAt(t, sep, j);
      }
    }
  }

  /** Repairing what follows one `\frac` adds no `\frac` and leaves nothing to repair. */
  lemma RepairedFree(sub: string)
    requires Repairable(sub) && Free(sub, FRAC)
    ensures Free(Repaired(sub), FRAC) && Repairable(Repaired(sub)) && Repaired(Repaired(sub)) == Repaired(sub)
  {
    StartsWithGroup(sub);
    if sub[0] != '{' {
      RepairedIs(sub);
      hide Repaired;
      if sub[1] == '{' {
        SubstringFree(sub, FRAC, 1, |sub|);
        assert sub[1..|sub|] == sub[1..];
        GroupFree(sub[0], sub[1..]);
      } else {
        SubstringFree(sub, FRAC, 2, |sub|);
        assert sub[2..|sub|] == sub[2..];
        GroupFree(sub[1], sub[2..]);
        GroupFree(sub[0], "{" + [sub[1]] + "}" + sub[2..]);
      }
    }
  }

  lemma StartsWithGroup(sub: string)
    requires Repairable(sub)
    ensures Repairable(Repaired(sub)) && Repaired(Repaired(sub)) == Repaired(sub)
  {
    RepairedCases(sub);
  }

  lemma GroupFree(c: char, rest: string)
    requires Free(rest, FRAC)
    ensures Free("{" + [c] + "}" + rest, FRAC)
  {
    assert Free("", FRAC) && Free([c], FRAC);
    FreeAroundBrace("", '{', [c], FRAC);
    FreeAroundBrace("" + ['{'] + [c], '}', rest, FRAC);
    assert "" + ['{'] + [c] + ['}'] + rest == "{" + [c] + "}" + rest;
  }

  lemma AllRepaired(subs: seq<string>)
    requires AllRepairable(subs) && AllFree(subs, FRAC)
    ensures var r := RepairAll(subs); AllRepairable(r) && AllFree(r, FRAC) && RepairAll(r) == r
  {
    var r := RepairAll(subs);
    forall i | 0 <= i < |r| ensures Repairable(r[i]) && Free(r[i], FRAC) && Repaired(r[i]) == r[i] {
      RepairedFree(subs[i]);
    }
  }

  /** Repairing twice repairs no more than once, on every string. */
  lemma FixFracsIdempotent(s: string)
    ensures Fixed(Fixed(s)) == Fixed(s)
  {
    assert FRAC != "";
    hide *;
    FixedIs(s);
    FracUnbordered();
    SplitJoin(s, FRAC);
    var subs := Split(s, FRAC);
    if AllRepairable(subs[1..]) {
      AllFreeTail(subs, FRAC);
      AllRepaired(subs[1..]);
      var tail := RepairAll(subs[1..]);
      var out := [subs[0]] + tail;
      assert out[1..] == tail;
      AllFreeCons(subs[0], tail, FRAC);
      JoinSplit(out, FRAC);
      FixedIs(Fixed(s));
    }
  }

  lemma AllFreeTail(ps: seq<string>, sep: string)
    requires ps != [] && AllFree(ps, sep)
    ensures Free(ps[0], sep) && AllFree(ps[1..], sep)
  {}

  lemma AllFreeCons(p: string, ps: seq<string>, sep: string)
    requires Free(p, sep) && AllFree(ps, sep)
    ensures AllFree([p] + ps, sep)
  {}

  // ---------- What the repair does to the arguments ----------

  /** r is s with braces inserted: deleting them gives s back. */
  ghost predicate AddsBraces(s: string, r: string) {
    if r == "" then s == ""
    else
      || (s != "" && s[0] == r[0] && AddsBraces(s[1..], r[1..]))
      || ((r[0] == '{' || r[0] == '}') && AddsBraces(s, r[1..]))
  }

  lemma {:induction false} AddsNothing(s: string)
    ensures AddsBraces(s, s)
  {
    if s != "" { AddsNothing(s[1..]); }
  }

  lemma {:induction false} AddsAppend(s: string, r: string, s': string, r': string)
    requires AddsBraces(s, r) && AddsBraces(s', r')
    ensures AddsBraces(s + s', r + r')
  {
    if r == "" {
      assert s + s' == s' && r + r' == r';
    } else {
      assert (r + r')[1..] == r[1..] + r';
      if s != "" && s[0] == r[0] && AddsBraces(s[1..], r[1..]) {
        assert (s + s')[1..] == s[1..] + s';
        AddsAppend(s[1..], r[1..], s', r');
      } else {
        AddsAppend(s, r[1..], s', r');
      }
    }
  }

  lemma AddsGroup(c: char)
    ensures AddsBraces([c], "{" + [c] + "}")
  {
    var r := "{" + [c] + "}";
    assert r[1..] == [c] + "}" && ([c] + "}")[1..] == "}" && "}"[1..] == "" && [c][1..] == "";
    assert AddsBraces("", "}");
  }

  lemma RepairAdds(sub: string)
    requires Repairable(sub)
    ensures AddsBraces(sub, Repaired(sub))
  {
    if sub[0] == '{' {
      AddsNothing(sub);
    } else {
      AddsGroup(sub[0]);
      AddsNothing(sub[1..]);
      AddsGroup(sub[1]);
      AddsNothing(sub[2..]);
      RepairedIs(sub);
      hide *;
      if sub[1] == '{' {
        AddsAppend([sub[0]], "{" + [sub[0]] + "}", sub[1..], sub[1..]);
      } else {
        AddsAppend([sub[1]], "{" + [sub[1]] + "}", sub[2..], sub[2..]);
        AddsAppend([sub[0]], "{" + [sub[0]] + "}", [sub[1]] + sub[2..], "{" + [sub[1]] + "}" + sub[2..]);
      }
    }
  }

  lemma RepairedIs(sub: string)
    requires Repairable(sub) && sub[0] != '{'
    ensures [sub[0]] + sub[1..] == sub == [sub[0]] + ([sub[1]] + sub[2..])
    ensures sub[1] == '{' ==> Repaired(sub) == "{" + [sub[0]] + "}" + sub[1..]
    ensures sub[1] != '{' ==> Repaired(sub) == "{" + [sub[0]] + "}" + ("{" + [sub[1]] + "}" + sub[2..])
  {
    RepairedCases(sub);
    hide *;
    assert sub == [sub[0]] + ([sub[1]] + sub[2..]) && sub[1..] == [sub[1]] + sub[2..];
    var a, b, c := "{" + [sub[0]] + "}", "{" + [sub[1]] + "}", sub[2..];
    if sub[1] == '{' {
      assert "{" + [sub[0]] + "}{" + c == a + ([sub[1]] + c);
    } else {
      assert "{" + [sub[0]] + "}{" + [sub[1]] + "}" + c == a + (b + c);
    }
  }

  lemma {:induction false} JoinAdds(ps: seq<string>, qs: seq<string>)
    requires ps != [] && |qs| == |ps| && forall i :: 0 <= i < |ps| ==> AddsBraces(ps[i], qs[i])
    ensures AddsBraces(Join(ps, FRAC), Join(qs, FRAC))
  {
    if |ps| > 1 {
      JoinAdds(ps[1..], qs[1..]);
      AddsNothing(FRAC);
      AddsAppend(ps[0], qs[0], FRAC, FRAC);
      AddsAppend(ps[0] + FRAC, qs[0] + FRAC, Join(ps[1..], FRAC), Join(qs[1..], FRAC));
    }
  }

  /** On every string the repair only inserts braces. */
  lemma FixFracsAddsBraces(s: string)
    ensures AddsBraces(s, Fixed(s))
  {
    assert FRAC != "";
    hide *;
    FixedIs(s);
    SplitJoin(s, FRAC);
    var subs := Split(s, FRAC);
    if AllRepairable(subs[1..]) {
      RepairAllAdds(subs);
      JoinAdds(subs, [subs[0]] + RepairAll(subs[1..]));
    } else {
      AddsNothing(s);
    }
  }

  lemma RepairAllAdds(subs: seq<string>)
    requires subs != [] && AllRepairable(subs[1..])
    ensures var qs := [subs[0]] + RepairAll(subs[1..]);
      |qs| == |subs| && forall i :: 0 <= i < |subs| ==> AddsBraces(subs[i], qs[i])
  {
    hide AddsBraces;
    var qs := [subs[0]] + RepairAll(subs[1..]);
    forall i | 0 <= i < |subs| ensures AddsBraces(subs[i], qs[i]) {
      if i == 0 { AddsNothing(subs[0]); } else { RepairAdds(subs[1..][i - 1]); }
    }
  }

  /** What becomes of the pieces that `\frac` joins. If one behind a `\frac` is too short, nothing changes.
      Otherwise the two characters behind each `\frac` become two groups, the second one only if it does not
      open a group itself, and a piece that begins with a group is kept. */
  lemma FixFracsExact(ps: seq<string>) returns (qs: seq<string>)
    requires ps != [] && AllFree(ps, FRAC)
    ensures (exists i :: 1 <= i < |ps| && (ps[i] == "" || (|ps[i]| == 1 && ps[i][0] != '{'))) ==>
      Fixed(Join(ps, FRAC)) == Join(ps, FRAC)
    ensures (forall i :: 1 <= i < |ps| ==> ps[i] != "" && (ps[i][0] == '{' || |ps[i]| > 1)) ==>
      && |qs| == |ps| && AllFree(qs, FRAC) && Fixed(Join(ps, FRAC)) == Join(qs, FRAC)
      && qs[0] == ps[0]
      && (forall i :: 1 <= i < |ps| && ps[i][0] == '{' ==> qs[i] == ps[i])
      && (forall i :: 1 <= i < |ps| && ps[i][0] != '{' && ps[i][1] == '{' ==>
            qs[i] == "{" + [ps[i][0]] + "}{" + ps[i][2..])
      && (forall i :: 1 <= i < |ps| && ps[i][0] != '{' && ps[i][1] != '{' ==>
            qs[i] == "{" + [ps[i][0]] + "}{" + [ps[i][1]] + "}" + ps[i][2..])
  {
    assert FRAC != "";
    hide *;
    FracUnbordered();
    JoinSplit(ps, FRAC);
    FixedIs(Join(ps, FRAC));
    RepairableCases(ps);
    qs := [];
    if AllRepairable(ps[1..]) {
      AllFreeTail(ps, FRAC);
      AllRepaired(ps[1..]);
      AllFreeCons(ps[0], RepairAll(ps[1..]), FRAC);
      qs := [ps[0]] + RepairAll(ps[1..]);
      forall i | 1 <= i < |ps| ensures qs[i] == Repaired(ps[i]) { assert ps[i] == ps[1..][i - 1]; }
      forall i | 1 <= i < |ps|
        ensures ps[i][0] == '{' ==> qs[i] == ps[i]
        ensures ps[i][0] != '{' && ps[i][1] == '{' ==> qs[i] == "{" + [ps[i][0]] + "}{" + ps[i][2..]
        ensures ps[i][0] != '{' && ps[i][1] != '{' ==>
          qs[i] == "{" + [ps[i][0]] + "}{" + [ps[i][1]] + "}" + ps[i][2..]
      {
        RepairedCases(ps[i]);
      }
    }
  }

  lemma RepairableCases(ps: seq<string>)
    requires ps != []
    ensures AllRepairable(ps[1..]) <==> forall i :: 1 <= i < |ps| ==> ps[i] != "" && (ps[i][0] == '{' || |ps[i]| > 1)
    ensures AllRepairable(ps[1..]) ==> forall i :: 1 <= i < |ps| ==> Repairable(ps[i])
  {
    forall i | 1 <= i < |ps| ensures ps[i] == ps[1..][i - 1] {}
  }

  lemma RepairedCases(sub: string)
    requires Repairable(sub)
    ensures sub[0] == '{' ==> Repaired(sub) == sub
    ensures sub[0] != '{' && sub[1] == '{' ==> Repaired(sub) == "{" + [sub[0]] + "}{" + sub[2..]
    ensures sub[0] != '{' && sub[1] != '{' ==> Repaired(sub) == "{" + [sub[0]] + "}{" + [sub[1]] + "}" + sub[2..]
  {
    if sub[0] != '{' && sub[1] == '{' {
      assert "}" + [sub[1]] == "}{";
    }
  }

  // ---------- boxed ----------

  const BOXED := "boxed"

  /** How many more braces open than close. */
  function Depth(s: string): int {
    if s == "" then 0
    else Depth(s[..|s| - 1]) + if s[|s| - 1] == '{' then 1 else if s[|s| - 1] == '}' then -1 else 0
  }

  ghost predicate Balanced(s: string) {
    Depth(s) == 0 && forall i :: 0 <= i <= |s| ==> Depth(s[..i]) >= 0
  }

  /** The brace that closes the group around position 0: the first one before which braces balance. */
  ghost predicate ClosesAt(rest: string, k: nat) {
    k < |rest| && rest[k] == '}' && Balanced(rest[..k])
  }

  /** The scan over what follows the opening brace. */
  method ScanBox(rest: string) returns (a: string)
    ensures forall k: nat :: ClosesAt(rest, k) ==> a == rest[..k]
    ensures (forall k: nat :: !ClosesAt(rest, k)) ==> a == rest
  {
    var stack := 1;
    a := "";
    for i := 0 to |rest|
      invariant a == rest[..i] && stack == Depth(rest[..i]) + 1
      invariant forall j :: 0 <= j <= i ==> Depth(rest[..j]) >= 0
    {
      var c := rest[i];
      DepthNext(rest, i);
      if c == '{' {
        stack := stack + 1;
        a := a + [c];
      } else if c == '}' {
        stack := stack - 1;
        if stack == 0 {
          BalancedPrefix(rest, i);
          assert ClosesAt(rest, i);
          forall k: nat | ClosesAt(rest, k) ensures k == i { OneClosing(rest, i, k); }
          return;
        }
        a := a + [c];
      } else {
        a := a + [c];
      }
    }
    assert rest[..|rest|] == rest;
    forall k: nat ensures !ClosesAt(rest, k) {
      if ClosesAt(rest, k) { DepthNext(rest, k); }
    }
  }

  lemma DepthNext(s: string, i: nat)
    requires i < |s|
    ensures Depth(s[..i + 1]) == Depth(s[..i]) + if s[i] == '{' then 1 else if s[i] == '}' then -1 else 0
  {
    assert s[..i + 1][..i] == s[..i];
  }

  lemma BalancedPrefix(s: string, k: nat)
    requires k <= |s| && Depth(s[..k]) == 0 && forall j :: 0 <= j <= k ==> Depth(s[..j]) >= 0
    ensures Balanced(s[..k])
  {
    forall i | 0 <= i <= k ensures Depth(s[..k][..i]) >= 0 { assert s[..k][..i] == s[..i]; }
  }

  lemma OneClosing(s: string, i: nat, k: nat)
    requires ClosesAt(s, i) && ClosesAt(s, k)
    ensures i == k
  {
    NoLaterClosing(s, i, k);
    NoLaterClosing(s, k, i);
  }

  lemma NoLaterClosing(s: string, i: nat, k: nat)
    requires ClosesAt(s, i)
    ensures i < k ==> !ClosesAt(s, k)
  {
    DepthNext(s, i);
    if i < k <= |s| {
      assert s[..k][..i + 1] == s[..i + 1];
    }
  }

  /** What `str.strip` removes. */
  predicate IsSpace(c: char) {
    c in " \t\n\r\U{0b}\U{0c}\U{1c}\U{1d}\U{1e}\U{1f}\U{85}\U{a0}\U{1680}\U{2028}\U{2029}\U{202f}\U{205f}\U{3000}"
    || '\U{2000}' <= c <= '\U{200a}'
  }

  function Strip(s: string): string
    decreases |s|
  {
    if s != "" && IsSpace(s[0]) then Strip(s[1..])
    else if s != "" && IsSpace(s[|s| - 1]) then Strip(s[..|s| - 1])
    else s
  }

  /** Only characters at the two ends go, all that are spaces. */
  lemma {:induction false} StripExact(s: string) returns (a: string, b: string)
    ensures s == a + Strip(s) + b
    ensures forall c :: c in a || c in b ==> IsSpace(c)
    ensures var r := Strip(s); r == "" || (!IsSpace(r[0]) && !IsSpace(r[|r| - 1]))
    decreases |s|
  {
    StripStep(s);
    hide *;
    a, b := "", "";
    if s != "" && IsSpace(s[0]) {
      var c, d := StripExact(s[1..]);
      a, b := [s[0]] + c, d;
      assert s == [s[0]] + s[1..];
    } else if s != "" && IsSpace(s[|s| - 1]) {
      var c, d := StripExact(s[..|s| - 1]);
      a, b := c, d + [s[|s| - 1]];
      assert s == s[..|s| - 1] + [s[|s| - 1]];
    } else {
      assert s == "" + s + "";
    }
  }

  lemma StripStep(s: string)
    ensures Strip(s) ==
      if s != "" && IsSpace(s[0]) then Strip(s[1..])
      else if s != "" && IsSpace(s[|s| - 1]) then Strip(s[..|s| - 1])
      else s
  {}

  /** What follows the last occurrence of the separator, or the whole string. */
  function LastPiece(s: string, sep: string): string
    requires sep != ""
  {
    var ps := Split(s, sep);
    ps[|ps| - 1]
  }

  /** `find_box` */
  method FindBox(s: string) returns (a: string)
    ensures var ans := LastPiece(s, BOXED);
      if ans != "" && ans[0] == '{' then
        && (forall k: nat :: ClosesAt(ans[1..], k) ==> a == ans[1..][..k])
        && ((forall k: nat :: !ClosesAt(ans[1..], k)) ==> a == ans[1..])
      else if ans == "" then a == ""
      else a == Strip(Split(ans, "$")[0])
    ensures forall pre, body, post :: IsLastBox(s, pre, body, post) ==> a == body
  {
    forall pre, body, post | IsLastBox(s, pre, body, post)
      ensures var ans := LastPiece(s, BOXED);
        ans != "" && ans[0] == '{' && ClosesAt(ans[1..], |body|) && ans[1..][..|body|] == body
    {
      LastBoxCloses(s, pre, body, post);
    }
    var pieces := Split(s, BOXED);
    var ans := pieces[|pieces| - 1];
    if ans == "" {
      return "";
    }
    if ans[0] == '{' {
      a := ScanBox(ans[1..]);
    } else {
      a := Strip(Split(ans, "$")[0]);
    }
  }

  /** The box scan of `extract_answer`: as in `find_box`, but only if there is a box. */
  method ExtractBoxed(s: string) returns (pred: string)
    ensures Free(s, BOXED) ==> pred == ""
    ensures !Free(s, BOXED) ==>
      var ans := LastPiece(s, BOXED);
      if ans != "" && ans[0] == '{' then
        && (forall k: nat :: ClosesAt(ans[1..], k) ==> pred == ans[1..][..k])
        && ((forall k: nat :: !ClosesAt(ans[1..], k)) ==> pred == ans[1..])
      else if ans == "" then pred == ""
      else pred == Strip(Split(ans, "$")[0])
    ensures forall pre, body, post :: IsLastBox(s, pre, body, post) ==> pred == body
  {
    if Find(s, BOXED, 0) == |s| {
      forall i: nat ensures !OccursAt(s, BOXED, i) {}
      forall pre, body, post ensures !IsLastBox(s, pre, body, post) {
        if IsLastBox(s, pre, body, post) { BoxOccurs(s, pre, body, post); }
      }
      return "";
    }
    pred := FindBox(s);
  }

  /** The string is `pre boxed{body} post`, the body's braces balance, and "boxed" does not occur again. */
  ghost predicate IsLastBox(s: string, pre: string, body: string, post: string) {
    && s == pre + BOXED + (['{'] + body + ['}'] + post)
    && Balanced(body) && Free(['{'] + body + ['}'] + post, BOXED)
  }

  lemma BoxOccurs(s: string, pre: string, body: string, post: string)
    requires IsLastBox(s, pre, body, post)
    ensures OccursAt(s, BOXED, |pre|)
  {
    assert s[|pre|..|pre| + |BOXED|] == BOXED;
  }

  lemma {:induction false} LastOfJoin(ps: seq<string>, tail: string, sep: string)
    requires ps != [] && Unbordered(sep) && AllFree(ps, sep) && Free(tail, sep)
    ensures LastPiece(Join(ps, sep) + sep + tail, sep) == tail
  {
    JoinSnoc(ps, tail, sep);
    JoinSplit(ps + [tail], sep);
  }

  /** The piece after the last "boxed" starts with the box, and the box's own brace closes it. */
  lemma LastBoxCloses(s: string, pre: string, body: string, post: string)
    requires IsLastBox(s, pre, body, post)
    ensures var ans := LastPiece(s, BOXED);
      ans != "" && ans[0] == '{' && ClosesAt(ans[1..], |body|) && ans[1..][..|body|] == body
  {
    var tail := ['{'] + body + ['}'] + post;
    SplitJoin(pre, BOXED);
    LastOfJoin(Split(pre, BOXED), tail, BOXED);
    assert tail[1..] == body + ['}'] + post;
    assert tail[1..][..|body|] == body;
  }
}
