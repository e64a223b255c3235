/** Member discovery over a paged listing (src/github.ts:64-116, 166-190). */
module MemberDiscovery {
  import opened Common

  datatype Member = Member(id: nat, login: string, role: Option<string>)

  /** `normalizeMember` under a fixed query: the member an entry stands for, if it is an eligible user. */
  type Normalize<!Raw> = Raw -> Option<Member>

  type LoginOrder = (string, string) -> bool

  ghost predicate StrictOrder(before: LoginOrder) {
    && (forall a :: !before(a, a))
    && (forall a, b :: a != b ==> before(a, b) || before(b, a))
    && (forall a, b, c :: before(a, b) && before(b, c) ==> before(a, c))
  }

  const PAGE: nat := 100

  function Cap(maxMembers: int): (cap: nat)
    ensures 1 <= cap <= 500
  {
    var atLeast := if maxMembers > 1 then maxMembers else 1;
    if atLeast < 500 then atLeast else 500
  }

  /** `Math.ceil(maxMembers / 100)` */
  function PageLimit(cap: nat): nat { (cap + PAGE - 1) / PAGE }

  /** The server's pages of 100. */
  function PageOf<Raw>(listing: seq<Raw>, page: nat): seq<Raw>
    requires page > 0
  {
    var from := (page - 1) * PAGE;
    if from >= |listing| then [] else if from + PAGE <= |listing| then listing[from..from + PAGE] else listing[from..]
  }

  predicate HasId(members: seq<Member>, id: nat) { exists i :: 0 <= i < |members| && members[i].id == id }

  /** The eligible members of a listing, each id at its first occurrence. */
  function Eligible<Raw>(listing: seq<Raw>, normalize: Normalize<Raw>): seq<Member> {
    if listing == [] then []
    else
      Extend(Eligible(listing[..|listing| - 1], normalize), normalize(listing[|listing| - 1]))
  }

  function Extend(members: seq<Member>, member: Option<Member>): seq<Member> {
    if member.None? || HasId(members, member.value.id) then members else members + [member.value]
  }

  /** The loop looks at entries until it has `cap` members, the listing ends or its last page does. */
  function Visited<Raw>(listing: seq<Raw>, cap: nat, normalize: Normalize<Raw>, n: nat): (v: nat)
    requires n <= |listing|
    ensures n <= v <= |listing|
    decreases |listing| - n
  {
    if n == |listing| || n == PageLimit(cap) * PAGE || |Eligible(listing[..n], normalize)| >= cap then n
    else Visited(listing, cap, normalize, n + 1)
  }

  /** When the answer is marked as truncated. */
  predicate IsTruncated<Raw>(listing: seq<Raw>, cap: nat, normalize: Normalize<Raw>) {
    MarkedAt(listing, cap, normalize, Visited(listing, cap, normalize, 0))
  }

  predicate MarkedAt<Raw>(listing: seq<Raw>, cap: nat, normalize: Normalize<Raw>, v: nat)
    requires v <= |listing|
  {
    if |Eligible(listing[..v], normalize)| >= cap then v < |listing| || |listing| % PAGE == 0
    else v == PageLimit(cap) * PAGE
  }

  // ---------- What the listing yields ----------

  ghost predicate DistinctIds(members: seq<Member>) {
    forall i, j :: 0 <= i < j < |members| ==> members[i].id != members[j].id
  }

  lemma {:induction false} EligibleAreDistinct<Raw>(listing: seq<Raw>, normalize: Normalize<Raw>)
    ensures DistinctIds(Eligible(listing, normalize))
  {
    if listing != [] {
      EligibleAreDistinct(listing[..|listing| - 1], normalize);
    }
  }

  /** Exactly the eligible users are there: every member comes from an entry, and every eligible entry's id is there. */
  lemma {:induction false} EligibleIsExact<Raw>(listing: seq<Raw>, normalize: Normalize<Raw>)
    ensures forall m :: m in Eligible(listing, normalize) ==> exists raw :: raw in listing && normalize(raw) == Some(m)
    ensures forall raw :: raw in listing && normalize(raw).Some? ==>
                            HasId(Eligible(listing, normalize), normalize(raw).value.id)
  {
    if listing != [] {
      var rest, last := listing[..|listing| - 1], listing[|listing| - 1];
      EligibleIsExact(rest, normalize);
      var front, all := Eligible(rest, normalize), Eligible(listing, normalize);
      assert listing == rest + [last];
      forall m | m in all
        ensures exists raw :: raw in listing && normalize(raw) == Some(m)
      {
        if m in front {
          var raw :| raw in rest && normalize(raw) == Some(m);
          assert raw in listing;
        } else {
          assert last in listing && normalize(last) == Some(m);
        }
      }
      forall raw | raw in listing && normalize(raw).Some?
        ensures HasId(all, normalize(raw).value.id)
      {
        var id := normalize(raw).value.id;
        if HasId(front, id) {
          var i :| 0 <= i < |front| && front[i].id == id;
          assert all[i].id == id;
        } else {
          assert raw == last;
          assert all[|front|].id == id;
        }
      }
    }
  }

  lemma {:induction false} VisitedStops<Raw>(listing: seq<Raw>, cap: nat, normalize: Normalize<Raw>, n: nat)
    requires n <= |listing| && n <= PageLimit(cap) * PAGE
    ensures var v := Visited(listing, cap, normalize, n);
            && v <= PageLimit(cap) * PAGE
            && (v == |listing| || v == PageLimit(cap) * PAGE || |Eligible(listing[..v], normalize)| >= cap)
    decreases |listing| - n
  {
    if n < |listing| && n < PageLimit(cap) * PAGE && |Eligible(listing[..n], normalize)| < cap {
      VisitedStops(listing, cap, normalize, n + 1);
    }
  }

  lemma EligibleStep<Raw>(listing: seq<Raw>, normalize: Normalize<Raw>, n: nat)
    requires n < |listing|
    ensures Eligible(listing[..n + 1], normalize) == Extend(Eligible(listing[..n], normalize), normalize(listing[n]))
  {
    assert listing[..n + 1][..n] == listing[..n];
  }

  lemma {:induction false} EligibleGrows<Raw>(listing: seq<Raw>, normalize: Normalize<Raw>, m: nat, n: nat)
    requires m <= n <= |listing|
    ensures |Eligible(listing[..m], normalize)| <= |Eligible(listing[..n], normalize)|
  {
    if m < n {
      EligibleGrows(listing, normalize, m, n - 1);
      EligibleStep(listing, normalize, n - 1);
    }
  }

  /** The loop does not stop before it has the cap. */
  lemma {:induction false} VisitedSkips<Raw>(listing: seq<Raw>, cap: nat, normalize: Normalize<Raw>, from: nat, to: nat)
    requires from <= to <= |listing| && to <= PageLimit(cap) * PAGE
    requires to > from ==> |Eligible(listing[..to - 1], normalize)| < cap
    ensures Visited(listing, cap, normalize, from) == Visited(listing, cap, normalize, to)
    decreases |listing| - from
  {
    if from < to {
      EligibleGrows(listing, normalize, from, to - 1);
      VisitedSkips(listing, cap, normalize, from + 1, to);
    }
  }

  /** An answer that is not marked as truncated is the whole set of distinct eligible members. */
  lemma UntruncatedIsComplete<Raw>(listing: seq<Raw>, cap: nat, normalize: Normalize<Raw>)
    requires cap > 0 && !IsTruncated(listing, cap, normalize)
    ensures Visited(listing, cap, normalize, 0) == |listing|
  {
    VisitedStops(listing, cap, normalize, 0);
  }

  lemma {:induction false} EligibleExtends<Raw>(listing: seq<Raw>, normalize: Normalize<Raw>, m: nat, n: nat)
    requires m <= n <= |listing|
    ensures Eligible(listing[..m], normalize) <= Eligible(listing[..n], normalize)
  {
    if m < n {
      EligibleExtends(listing, normalize, m, n - 1);
      EligibleStep(listing, normalize, n - 1);
    }
  }

  /** From entry `n` on, every entry is ineligible or repeats an earlier member. */
  ghost predicate NothingNew<Raw>(listing: seq<Raw>, normalize: Normalize<Raw>, n: nat)
    requires n <= |listing|
  {
    forall i :: n <= i < |listing| && normalize(listing[i]).Some? ==>
                  HasId(Eligible(listing[..n], normalize), normalize(listing[i]).value.id)
  }

  lemma {:induction false} NothingNewIff<Raw>(listing: seq<Raw>, normalize: Normalize<Raw>, n: nat)
    requires n <= |listing|
    ensures NothingNew(listing, normalize, n) <==>
            Eligible(listing[..n], normalize) == Eligible(listing, normalize)
    decreases |listing| - n
  {
    assert listing[..|listing|] == listing;
    if n < |listing| {
      NothingNewIff(listing, normalize, n + 1);
      EligibleStep(listing, normalize, n);
      EligibleExtends(listing, normalize, n + 1, |listing|);
    }
  }

  lemma {:induction false} FirstReached<Raw>(listing: seq<Raw>, cap: nat, normalize: Normalize<Raw>, n: nat)
    requires n <= |listing| && n <= PageLimit(cap) * PAGE && |Eligible(listing[..n], normalize)| <= cap
    requires n > 0 ==> |Eligible(listing[..n - 1], normalize)| < cap
    ensures var v := Visited(listing, cap, normalize, n);
            && |Eligible(listing[..v], normalize)| <= cap
            && (v > 0 ==> |Eligible(listing[..v - 1], normalize)| < cap)
    decreases |listing| - n
  {
    if n < |listing| && n < PageLimit(cap) * PAGE && |Eligible(listing[..n], normalize)| < cap {
      EligibleStep(listing, normalize, n);
      FirstReached(listing, cap, normalize, n + 1);
    }
  }

  function Reach<Raw>(listing: seq<Raw>, cap: nat): (n: nat)
    ensures n <= |listing|
  {
    if PageLimit(cap) * PAGE < |listing| then PageLimit(cap) * PAGE else |listing|
  }

  /** The visited entries yield every member exactly if there are at most `cap`, all on the pages that may be read. */
  lemma CompleteIff<Raw>(listing: seq<Raw>, cap: nat, normalize: Normalize<Raw>)
    requires cap > 0
    ensures Eligible(listing[..Visited(listing, cap, normalize, 0)], normalize) == Eligible(listing, normalize) <==>
            |Eligible(listing, normalize)| <= cap && NothingNew(listing, normalize, Reach(listing, cap))
  {
    var v, reach := Visited(listing, cap, normalize, 0), Reach(listing, cap);
    assert listing[..0] == [] && listing[..|listing|] == listing;
    VisitedStops(listing, cap, normalize, 0);
    FirstReached(listing, cap, normalize, 0);
    NothingNewIff(listing, normalize, reach);
    EligibleExtends(listing, normalize, v, reach);
    EligibleExtends(listing, normalize, reach, |listing|);
  }

  /**
   The mark is a false alarm exactly if there are at most `cap` members, none beyond the last page that may be read,
   and either they just fill the cap and the listing ends with a full page or an entry that adds nobody, or they do
   not fill it and the listing reaches the page limit.
   */
  lemma FalseAlarmIff<Raw>(listing: seq<Raw>, cap: nat, normalize: Normalize<Raw>)
    requires cap > 0
    ensures IsTruncated(listing, cap, normalize) &&
            Eligible(listing[..Visited(listing, cap, normalize, 0)], normalize) == Eligible(listing, normalize) <==>
              && |Eligible(listing, normalize)| <= cap && NothingNew(listing, normalize, Reach(listing, cap))
              && if |Eligible(listing, normalize)| == cap
                 then |listing| % PAGE == 0 || NothingNew(listing, normalize, |listing| - 1)
                 else |listing| >= PageLimit(cap) * PAGE
  {
    CompleteIff(listing, cap, normalize);
    var v := Visited(listing, cap, normalize, 0);
    assert listing[..0] == [] && listing[..|listing|] == listing;
    if Eligible(listing[..v], normalize) == Eligible(listing, normalize) {
      VisitedStops(listing, cap, normalize, 0);
      FirstReached(listing, cap, normalize, 0);
      if |Eligible(listing, normalize)| == cap {
        NothingNewIff(listing, normalize, |listing| - 1);
        EligibleExtends(listing, normalize, |listing| - 1, |listing|);
        if v < |listing| {
          EligibleExtends(listing, normalize, v, |listing| - 1);
        }
      }
    }
  }

  /** Two such answers: a full last page that just fills the cap, and a page limit that is reached without members. */
  lemma CompleteMayLookTruncated<Raw>(listing: seq<Raw>, normalize: Normalize<Raw>)
    requires |listing| == 100 && |Eligible(listing, normalize)| == 100
    ensures IsTruncated(listing, 100, normalize)
    ensures Eligible(listing[..Visited(listing, 100, normalize, 0)], normalize) == Eligible(listing, normalize)
  {
    FalseAlarmIff(listing, 100, normalize);
  }

  lemma EmptyMayLookTruncated<Raw>(listing: seq<Raw>, normalize: Normalize<Raw>)
    requires |listing| == 200 && Eligible(listing, normalize) == []
    ensures IsTruncated(listing, 150, normalize) && Visited(listing, 150, normalize, 0) == |listing|
  {
    assert Reach(listing, 150) == |listing|;
    FalseAlarmIff(listing, 150, normalize);
    VisitedStops(listing, 150, normalize, 0);
    EligibleExtends(listing, normalize, Visited(listing, 150, normalize, 0), |listing|);
    assert listing[..|listing|] == listing;
  }

  // ---------- Sorting ----------

  ghost predicate SortedByLogin(members: seq<Member>, before: LoginOrder) {
    forall i, j :: 0 <= i < j < |members| ==> !before(members[j].login, members[i].login)
  }

  method SortByLogin(members: seq<Member>, before: LoginOrder) returns (sorted: seq<Member>)
    requires StrictOrder(before)
    ensures SortedByLogin(sorted, before) && multiset(sorted) == multiset(members)
  {
    sorted := [];
    for i := 0 to |members|
      invariant SortedByLogin(sorted, before) && multiset(sorted) == multiset(members[..i])
    {
      var at := |sorted|;
      while at > 0 && before(members[i].login, sorted[at - 1].login)
        invariant 0 <= at <= |sorted|
        invariant forall k :: at <= k < |sorted| ==> before(members[i].login, sorted[k].login)
      {
        at := at - 1;
      }
      InsertKeepsSorted(sorted, at, members[i], before);
      assert members[..i + 1] == members[..i] + [members[i]];
      assert sorted == sorted[..at] + sorted[at..];
      sorted := sorted[..at] + [members[i]] + sorted[at..];
    }
    assert members[..|members|] == members;
  }

  lemma InsertKeepsSorted(sorted: seq<Member>, at: nat, m: Member, before: LoginOrder)
    requires StrictOrder(before) && SortedByLogin(sorted, before) && at <= |sorted|
    requires at > 0 ==> !before(m.login, sorted[at - 1].login)
    requires forall k :: at <= k < |sorted| ==> before(m.login, sorted[k].login)
    ensures SortedByLogin(sorted[..at] + [m] + sorted[at..], before)
  {
    forall k | 0 <= k < at
      ensures !before(m.login, sorted[k].login)
    {
      NotBefore(before, m.login, sorted[at - 1].login, sorted[k].login);
    }
    forall k | at <= k < |sorted|
      ensures !before(sorted[k].login, m.login)
    {
      NotBefore(before, sorted[k].login, sorted[k].login, m.login);
    }
  }

  /** What is not before `b` is not before anything that `b` is not before, nor before what is before it. */
  lemma NotBefore(before: LoginOrder, a: string, b: string, c: string)
    requires StrictOrder(before)
    ensures !before(a, b) && (!before(b, c) || b == c) ==> !before(a, c)
    ensures before(c, a) ==> !before(a, c)
  {
  }

  // ---------- The loop ----------

  class GitHubRestMemberSource<!Raw> {
    const maxMembers: nat
    const normalize: Normalize<Raw>
    const before: LoginOrder

    constructor (maxMembers: int, normalize: Normalize<Raw>, before: LoginOrder)
      ensures this.maxMembers == Cap(maxMembers) && this.normalize == normalize && this.before == before
    {
      this.maxMembers, this.normalize, this.before := Cap(maxMembers), normalize, before;
    }

    /** One page: its entries in order, until the cap is reached. */
    method TakePage(payload: seq<Raw>, sofar: seq<Member>, ghost listing: seq<Raw>, ghost from: nat)
      returns (members: seq<Member>, visited: nat)
      requires from + |payload| <= |listing| && payload == listing[from..from + |payload|]
      requires sofar == Eligible(listing[..from], normalize) && |sofar| < maxMembers
      ensures visited <= |payload| && members == Eligible(listing[..from + visited], normalize)
      ensures |members| <= maxMembers && (|members| < maxMembers ==> visited == |payload|)
      ensures visited > 0 ==> |Eligible(listing[..from + visited - 1], normalize)| < maxMembers
    {
      members, visited := sofar, 0;
      while visited < |payload| && |members| < maxMembers
        invariant visited <= |payload| && members == Eligible(listing[..from + visited], normalize)
        invariant |members| <= maxMembers
        invariant visited > 0 ==> |Eligible(listing[..from + visited - 1], normalize)| < maxMembers
      {
        EligibleStep(listing, normalize, from + visited);
        assert payload[visited] == listing[from + visited];
        var member := normalize(payload[visited]);
        if member.Some? && !HasId(members, member.value.id) {
          members := members + [member.value];
        }
        visited := visited + 1;
      }
    }

    /** The body of the loop over pages: take one page, and see whether it was the last. */
    method TurnPage(listing: seq<Raw>, page: nat, sofar: seq<Member>)
      returns (found: seq<Member>, last: bool, truncated: bool, ghost end: nat)
      requires 1 <= page <= PageLimit(maxMembers) && (page - 1) * PAGE <= |listing|
      requires sofar == Eligible(listing[..(page - 1) * PAGE], normalize) && |sofar| < maxMembers
      ensures end <= |listing| && found == Eligible(listing[..end], normalize) && |found| <= maxMembers
      ensures Visited(listing, maxMembers, normalize, (page - 1) * PAGE) ==
              Visited(listing, maxMembers, normalize, end)
      ensures last ==> Visited(listing, maxMembers, normalize, end) == end
      ensures last ==> truncated == MarkedAt(listing, maxMembers, normalize, end)
      ensures !last ==> end == page * PAGE && |found| < maxMembers && page < PageLimit(maxMembers) && !truncated
    {
      var payload := PageOf(listing, page);
      PageEnds(listing, page, PageLimit(maxMembers));
      var visited;
      found, visited := TakePage(payload, sofar, listing, (page - 1) * PAGE);
      PageTaken(listing, maxMembers, normalize, page, visited);
      end := (page - 1) * PAGE + visited;
      last, truncated := true, false;
      if |found| >= maxMembers {
        truncated := visited < |payload| || |payload| == PAGE;
        CapReached(listing, page, end, visited);
      } else if |payload| == PAGE {
        last, truncated := page >= PageLimit(maxMembers), page >= PageLimit(maxMembers);
      }
    }

    /** The loop over pages. */
    method Collect(listing: seq<Raw>) returns (found: seq<Member>, truncated: bool, ghost end: nat)
      requires 1 <= maxMembers <= 500
      ensures end == Visited(listing, maxMembers, normalize, 0) && found == Eligible(listing[..end], normalize)
      ensures |found| <= maxMembers && truncated == IsTruncated(listing, maxMembers, normalize)
    {
      found := [];
      var page, last := 1, false;
      truncated := false;
      end := 0;
      while !last
        invariant end <= |listing| && found == Eligible(listing[..end], normalize) && |found| <= maxMembers
        invariant Visited(listing, maxMembers, normalize, end) == Visited(listing, maxMembers, normalize, 0)
        invariant last ==> Visited(listing, maxMembers, normalize, end) == end
        invariant last ==> truncated == MarkedAt(listing, maxMembers, normalize, end)
        invariant !last ==> 1 <= page <= PageLimit(maxMembers) && end == (page - 1) * PAGE && |found| < maxMembers
        decreases !last, PageLimit(maxMembers) - page
      {
        found, last, truncated, end := TurnPage(listing, page, found);
        if !last {
          page := page + 1;
        }
      }
    }

    /** `preview` */
    method Preview(listing: seq<Raw>) returns (members: seq<Member>, truncated: bool)
      requires 1 <= maxMembers <= 500 && StrictOrder(before)
      ensures |members| <= maxMembers && DistinctIds(members) && SortedByLogin(members, before)
      ensures multiset(members) ==
              multiset(Eligible(listing[..Visited(listing, maxMembers, normalize, 0)], normalize))
      ensures truncated == IsTruncated(listing, maxMembers, normalize)
      ensures !truncated ==> multiset(members) == multiset(Eligible(listing, normalize))
    {
      var found;
      ghost var end;
      found, truncated, end := Collect(listing);
      if !truncated {
        UntruncatedIsComplete(listing, maxMembers, normalize);
        assert listing[..|listing|] == listing;
      }
      EligibleAreDistinct(listing[..end], normalize);
      members := SortDistinct(found);
    }

    method SortDistinct(found: seq<Member>) returns (members: seq<Member>)
      requires DistinctIds(found) && StrictOrder(before)
      ensures SortedByLogin(members, before) && DistinctIds(members)
      ensures multiset(members) == multiset(found) && |members| == |found|
    {
      members := SortByLogin(found, before);
      PermutedIsDistinct(found, members);
    }
  }

  lemma PageEnds<Raw>(listing: seq<Raw>, page: nat, pageLimit: nat)
    requires 1 <= page <= pageLimit && (page - 1) * PAGE <= |listing|
    ensures var payload := PageOf(listing, page);
            var from := (page - 1) * PAGE;
            && |payload| <= PAGE && from + |payload| <= |listing| && payload == listing[from..from + |payload|]
            && from + |payload| <= pageLimit * PAGE
            && (|payload| < PAGE ==> from + |payload| == |listing|)
            && (|payload| == PAGE ==> from + |payload| == page * PAGE)
            && (|payload| == PAGE && page == pageLimit ==> from + |payload| == pageLimit * PAGE)
  {
    assert page * PAGE <= pageLimit * PAGE;
  }

  /** A page is worked through: the loop goes on where it ends, or has visited what it is to visit. */
  lemma PageTaken<Raw>(listing: seq<Raw>, cap: nat, normalize: Normalize<Raw>, page: nat, visited: nat)
    requires 1 <= page <= PageLimit(cap) && (page - 1) * PAGE <= |listing| && visited <= |PageOf(listing, page)|
    requires var end := (page - 1) * PAGE + visited;
             && (visited > 0 ==> |Eligible(listing[..end - 1], normalize)| < cap)
             && (|Eligible(listing[..end], normalize)| < cap ==> visited == |PageOf(listing, page)|)
    ensures var from, end := (page - 1) * PAGE, (page - 1) * PAGE + visited;
            && Visited(listing, cap, normalize, from) == Visited(listing, cap, normalize, end)
            && (|Eligible(listing[..end], normalize)| >= cap || |PageOf(listing, page)| < PAGE || page == PageLimit(cap)
                ==> Visited(listing, cap, normalize, end) == end)
            && (|PageOf(listing, page)| < PAGE ==> end < PageLimit(cap) * PAGE)
            && (visited == PAGE ==> end == page * PAGE)
  {
    PageEnds(listing, page, PageLimit(cap));
    VisitedSkips(listing, cap, normalize, (page - 1) * PAGE, (page - 1) * PAGE + visited);
  }

  /** Whether the page on which the cap was reached leaves room for doubt. */
  lemma CapReached<Raw>(listing: seq<Raw>, page: nat, end: nat, visited: nat)
    requires page > 0 && end == (page - 1) * PAGE + visited && 0 < visited <= |PageOf(listing, page)|
    ensures (visited < |PageOf(listing, page)| || |PageOf(listing, page)| == PAGE) <==>
            (end < |listing| || |listing| % PAGE == 0)
  {
  }

  lemma PermutedIsDistinct(xs: seq<Member>, ys: seq<Member>)
    requires DistinctIds(xs) && multiset(xs) == multiset(ys)
    ensures DistinctIds(ys) && |xs| == |ys|
  {
    assert |xs| == |multiset(xs)| && |ys| == |multiset(ys)|;
    forall i, j | 0 <= i < j < |ys|
      ensures ys[i].id != ys[j].id
    {
      var a, b := ys[i], ys[j];
      assert a in multiset(xs) && b in multiset(xs);
      var m :| 0 <= m < |xs| && xs[m] == a;
      var n :| 0 <= n < |xs| && xs[n] == b;
      if m == n {
        CountTwice(ys, i, j);
        CountOnce(xs, m);
      }
    }
  }

  lemma CountTwice(s: seq<Member>, i: nat, j: nat)
    requires i < j < |s| && s[i] == s[j]
    ensures multiset(s)[s[i]] >= 2
  {
    assert s == s[..j] + s[j..];
    assert s[..j][i] == s[i] && s[j..][0] == s[j];
    assert s[i] in s[..j] && s[j] in s[j..];
    assert multiset(s) == multiset(s[..j]) + multiset(s[j..]);
  }

  lemma CountOnce(s: seq<Member>, i: nat)
    requires i < |s| && DistinctIds(s)
    ensures multiset(s)[s[i]] == 1
  {
    assert s == s[..i] + [s[i]] + s[i + 1..];
    assert s[i] !in s[..i] && s[i] !in s[i + 1..];
    assert multiset(s) == multiset(s[..i]) + multiset{s[i]} + multiset(s[i + 1..]);
  }
}
