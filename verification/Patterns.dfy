// The substitutions of deploy.sh all have the shape  s|HEAD.*TAIL|HEAD<address>TAIL|
// without the g flag: one replacement per line, of the leftmost match and, among the
// matches that start there, the longest one (section 9.1 of the Base Definitions of
// POSIX.1-2017).
module Patterns {
  import opened Basics

  // The regular expression  head.*tail , both ends being literal text.
  datatype Pattern = Pattern(head: string, tail: string)

  datatype Span = Span(start: nat, end: nat)

  predicate OccursAt(w: string, s: string, i: int) {
    0 <= i <= |s| - |w| && s[i..i + |w|] == w
  }

  predicate Contains(s: string, w: string) {
    exists i | 0 <= i <= |s| :: OccursAt(w, s, i)
  }

  // s[i..j] belongs to the language of p.
  predicate Matches(p: Pattern, s: string, i: int, j: int) {
    && i + |p.head| + |p.tail| <= j
    && OccursAt(p.head, s, i)
    && OccursAt(p.tail, s, j - |p.tail|)
  }

  ghost predicate LeftmostLongest(p: Pattern, s: string, i: int, j: int) {
    && Matches(p, s, i, j)
    && forall a, b :: Matches(p, s, a, b) ==> i <= a && (a == i ==> b <= j)
  }

  // The last position at or before `from` where w occurs.
  function LastAt(w: string, s: string, from: int): (r: Option<nat>)
    requires from <= |s|
    ensures r.Some? ==> r.value <= from && OccursAt(w, s, r.value)
    ensures forall i :: i <= from && OccursAt(w, s, i) ==> r.Some? && i <= r.value
    decreases from + 1
  {
    if from < 0 then None
    else if OccursAt(w, s, from) then Some(from)
    else LastAt(w, s, from - 1)
  }

  // The first position in [from, limit] where w occurs.
  function FirstAt(w: string, s: string, from: int, limit: int): (r: Option<nat>)
    requires 0 <= from
    ensures r.Some? ==> from <= r.value <= limit && OccursAt(w, s, r.value)
    ensures forall i :: from <= i <= limit && OccursAt(w, s, i) ==> r.Some? && r.value <= i
    decreases limit - from
  {
    if from > limit then None
    else if OccursAt(w, s, from) then Some(from)
    else FirstAt(w, s, from + 1, limit)
  }

  function Find(p: Pattern, s: string): (r: Option<Span>)
    ensures r.Some? ==> LeftmostLongest(p, s, r.value.start, r.value.end)
    ensures r.None? ==> forall i, j :: !Matches(p, s, i, j)
  {
    match LastAt(p.tail, s, |s|)
    case None => None
    case Some(k) =>
      match FirstAt(p.head, s, 0, k - |p.head|)
      case None => None
      case Some(i) => Some(Span(i, k + |p.tail|))
  }

  lemma LeftmostLongestIsUnique(p: Pattern, s: string, i: int, j: int)
    requires LeftmostLongest(p, s, i, j)
    ensures Find(p, s) == Some(Span(i, j))
  {
    var r := Find(p, s);
    assert Matches(p, s, i, j);
    assert Matches(p, s, r.value.start, r.value.end);
  }

  function Substitute(p: Pattern, s: string, mid: string): string {
    match Find(p, s)
    case None => s
    case Some(m) => s[..m.start] + p.head + mid + p.tail + s[m.end..]
  }

  // Texts that agree up to n agree on the heads that lie before n.
  lemma HeadInPrefix(p: Pattern, s: string, t: string, n: nat, i: int, end: int)
    requires n <= |s| && n <= |t| && s[..n] == t[..n]
    requires OccursAt(p.head, s, i) && i + |p.head| <= n
    requires i + |p.head| + |p.tail| <= end && OccursAt(p.tail, t, end - |p.tail|)
    ensures Matches(p, t, i, end)
  {
    assert s[i..i + |p.head|] == s[..n][i..i + |p.head|];
    assert t[i..i + |p.head|] == t[..n][i..i + |p.head|];
  }

  // Texts that agree from n and m on agree on the tails that lie there.
  lemma TailInSuffix(p: Pattern, s: string, t: string, n: nat, m: nat, start: int, i: int)
    requires n <= |s| && m <= |t| && s[n..] == t[m..]
    requires OccursAt(p.tail, s, i) && n <= i
    requires OccursAt(p.head, t, start) && start + |p.head| <= i - n + m
    ensures Matches(p, t, start, i - n + m + |p.tail|)
  {
    var w, d := p.tail, i - n;
    assert |s| - n == |t| - m;
    forall x | 0 <= x < |w|
      ensures t[d + m..d + m + |w|][x] == w[x]
    {
      assert s[i..i + |w|][x] == s[n..][d + x];
      assert t[d + m..d + m + |w|][x] == t[m..][d + x];
    }
  }

  // A rewritten line keeps what surrounded the match ...
  lemma RewrittenText(p: Pattern, s: string, mid: string)
    requires Find(p, s).Some?
    ensures var m := Find(p, s).value;
            var t := Substitute(p, s, mid);
            var k := m.start + |p.head| + |mid|;
            && k + |p.tail| <= |t| && m.start + |p.head| <= k && |p.tail| <= m.end
            && t[..m.start + |p.head|] == s[..m.start + |p.head|]
            && t[k..] == s[m.end - |p.tail|..]
            && t[k + |p.tail|..] == s[m.end..]
            && Matches(p, t, m.start, k + |p.tail|)
  {
    var m := Find(p, s).value;
    var t := Substitute(p, s, mid);
    var k := m.start + |p.head| + |mid|;
    assert s[m.end - |p.tail|..] == p.tail + s[m.end..];
    assert t == s[..m.start] + p.head + mid + (p.tail + s[m.end..]);
    assert t[k..] == p.tail + s[m.end..];
    assert t[k..k + |p.tail|] == p.tail;
    assert t[m.start..m.start + |p.head|] == p.head;
  }

  // ... and no match of it starts earlier,
  lemma NoEarlierMatch(p: Pattern, s: string, mid: string, a: int, b: int)
    requires Find(p, s).Some? && Matches(p, Substitute(p, s, mid), a, b)
    ensures Find(p, s).value.start <= a
  {
    RewrittenText(p, s, mid);
    var m := Find(p, s).value;
    if a < m.start {
      HeadInPrefix(p, Substitute(p, s, mid), s, m.start + |p.head|, a, m.end);
    }
  }

  // ... or, starting there, ends later.
  lemma NoLongerMatch(p: Pattern, s: string, mid: string, b: int)
    requires Find(p, s).Some? && Matches(p, Substitute(p, s, mid), Find(p, s).value.start, b)
    ensures b <= Find(p, s).value.start + |p.head| + |mid| + |p.tail|
  {
    RewrittenText(p, s, mid);
    var m := Find(p, s).value;
    var k := m.start + |p.head| + |mid|;
    if b > k + |p.tail| {
      TailInSuffix(p, Substitute(p, s, mid), s, k, m.end - |p.tail|, m.start, b - |p.tail|);
    }
  }

  // So it matches again exactly where it was rewritten.
  lemma RewrittenSpan(p: Pattern, s: string, mid: string)
    requires Find(p, s).Some?
    ensures var i := Find(p, s).value.start;
            Find(p, Substitute(p, s, mid)) == Some(Span(i, i + |p.head| + |mid| + |p.tail|))
  {
    RewrittenText(p, s, mid);
    var i, t := Find(p, s).value.start, Substitute(p, s, mid);
    var end := i + |p.head| + |mid| + |p.tail|;
    forall a, b | Matches(p, t, a, b)
      ensures i <= a && (a == i ==> b <= end)
    {
      NoEarlierMatch(p, s, mid, a, b);
      if a == i {
        NoLongerMatch(p, s, mid, b);
      }
    }
    LeftmostLongestIsUnique(p, t, i, end);
  }

  // The second rewriting of a line erases every trace of the first, for every line and
  // every pair of addresses, although ".*" is greedy.
  lemma SubstituteTwice(p: Pattern, s: string, a: string, b: string)
    ensures Substitute(p, Substitute(p, s, a), b) == Substitute(p, s, b)
  {
    if Find(p, s).Some? {
      RewrittenSpan(p, s, a);
      RewrittenText(p, s, a);
      var i := Find(p, s).value.start;
      assert Substitute(p, s, a)[..i] == s[..i];
    }
  }

  // Two different addresses of one length leave two different lines.
  lemma SubstituteInjective(p: Pattern, s: string, a: string, b: string)
    requires Find(p, s).Some? && |a| == |b| && a != b
    ensures Substitute(p, s, a) != Substitute(p, s, b)
  {
    var i := Find(p, s).value.start + |p.head|;
    assert Substitute(p, s, a)[i..i + |a|] == a;
    assert Substitute(p, s, b)[i..i + |b|] == b;
  }

  lemma ContainsLeft(a: string, b: string, w: string)
    requires Contains(a, w)
    ensures Contains(a + b, w)
  {
    var i :| 0 <= i <= |a| && OccursAt(w, a, i);
    assert (a + b)[i..i + |w|] == a[i..i + |w|];
    assert OccursAt(w, a + b, i);
  }

  lemma ContainsRight(a: string, b: string, w: string)
    requires Contains(b, w)
    ensures Contains(a + b, w)
  {
    var i :| 0 <= i <= |b| && OccursAt(w, b, i);
    assert (a + b)[|a| + i..|a| + i + |w|] == b[i..i + |w|];
    assert OccursAt(w, a + b, |a| + i);
  }

  lemma LacksChar(s: string, w: string, x: nat)
    requires x < |w| && w[x] !in s
    ensures !Contains(s, w)
  {
    forall i | 0 <= i <= |s|
      ensures !OccursAt(w, s, i)
    {
      if i <= |s| - |w| {
        assert s[i..i + |w|][x] == s[i + x];
      }
    }
  }

  // A word that neither contains the first character of mid nor starts inside mid lies
  // wholly before or wholly after it.
  lemma OccursOutside(w: string, left: string, mid: string, right: string)
    requires w != "" && mid != "" && mid[0] !in w && w[0] !in mid
    requires Contains(left + (mid + right), w)
    ensures Contains(left, w) || Contains(right, w)
  {
    var t := left + (mid + right);
    var i :| 0 <= i <= |t| && OccursAt(w, t, i);
    forall y | i <= y < i + |w|
      ensures t[y] == w[y - i]
    {
      assert t[i..i + |w|][y - i] == t[y];
    }
    assert forall y :: |left| <= y < |left| + |mid| ==> t[y] == mid[y - |left|];
    assert t[|left|] == mid[0] && t[i] == w[0];
    if i <= |left| - |w| {
      assert left[i..i + |w|] == t[i..i + |w|];
      assert OccursAt(w, left, i);
    } else if |left| + |mid| <= i {
      var k := i - |left| - |mid|;
      forall x | 0 <= x < |w|
        ensures right[k..k + |w|][x] == w[x]
      {
        assert t[i + x] == right[k + x];
      }
      assert OccursAt(w, right, k);
    }
  }

  // Whether such a word is in a line after a substitution depends only on what the
  // substitution leaves in place.
  lemma ContainsAfter(p: Pattern, s: string, mid: string, w: string)
    requires Find(p, s).Some? && w != "" && p.head != ""
    requires p.head[0] !in w && w[0] !in p.head && w[0] !in mid && w[0] !in p.tail
    ensures var m := Find(p, s).value;
            && Contains(Substitute(p, s, mid), w) == (Contains(s[..m.start], w) || Contains(s[m.end..], w))
            && (Contains(s[..m.start], w) || Contains(s[m.end..], w) ==> Contains(s, w))
  {
    var m := Find(p, s).value;
    var left, middle, right := s[..m.start], p.head + mid + p.tail, s[m.end..];
    assert Substitute(p, s, mid) == left + (middle + right);
    assert s == left + s[m.start..] && s == s[..m.end] + right;
    if Contains(left, w) {
      ContainsLeft(left, middle + right, w);
      ContainsLeft(left, s[m.start..], w);
    }
    if Contains(right, w) {
      ContainsRight(middle, right, w);
      ContainsRight(left, middle + right, w);
      ContainsRight(s[..m.end], right, w);
    }
    if Contains(left + (middle + right), w) {
      OccursOutside(w, left, middle, right);
    }
  }

  // A line that is nothing but a target matches as a whole.
  lemma SpanOfTarget(p: Pattern, mid: string)
    ensures Find(p, p.head + mid + p.tail) == Some(Span(0, |p.head + mid + p.tail|))
  {
    var t := p.head + mid + p.tail;
    assert t[0..|p.head|] == p.head;
    assert t[|t| - |p.tail|..|t|] == p.tail;
    assert Matches(p, t, 0, |t|);
    LeftmostLongestIsUnique(p, t, 0, |t|);
  }

  // A line that is nothing but an indented target is rewritten as a whole.
  lemma SubstituteIndented(p: Pattern, indent: string, a: string, b: string)
    requires p.head != "" && p.head[0] !in indent
    ensures Substitute(p, indent + (p.head + a + p.tail), b) == indent + (p.head + b + p.tail)
  {
    var n := |indent|;
    var t := indent + (p.head + a + p.tail);
    assert forall x :: 0 <= x < n ==> t[x] == indent[x];
    assert t[n..n + |p.head|] == p.head;
    assert t[|t| - |p.tail|..|t|] == p.tail;
    assert Matches(p, t, n, |t|);
    forall i, j | Matches(p, t, i, j)
      ensures n <= i && (i == n ==> j <= |t|)
    {
      assert t[i] == t[i..i + |p.head|][0] == p.head[0];
    }
    LeftmostLongestIsUnique(p, t, n, |t|);
    assert t[..n] == indent && t[|t|..] == [];
    assert indent + p.head + b + p.tail + [] == indent + (p.head + b + p.tail);
  }
}
