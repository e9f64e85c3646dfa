/** The search endpoint: the matches of a request, ordered by provider name,
    cut into one page, with the number of all matches beside it. The page
    query and the count query read the same snapshot of the table. */
module Search {
  import opened Wrappers
  import opened Records
  import opened Ordering
  import opened SearchFilter

  const DefaultPage := 1
  const DefaultLimit := 10

  /** `page` as sent, or 1 when absent. A page of 0 sent explicitly stays 0. */
  function PageOf(q: SearchParams): int {
    q.page.GetOr(DefaultPage)
  }

  /** `limit` as sent, or 10 when absent. */
  function LimitOf(q: SearchParams): int {
    q.limit.GetOr(DefaultLimit)
  }

  /** The number of matches before the page: `(page - 1) * limit`. */
  function SkipOf(q: SearchParams): int {
    (PageOf(q) - 1) * LimitOf(q)
  }

  // ---------------------------------------------------------------------------
  // The matches

  /** The stored records that satisfy `w`, in stored order. */
  function Filter(db: Database, w: Where): (r: Database)
    ensures forall p :: p in r <==> p in db && Eval(w, p)
    ensures |r| <= |db|
  {
    if db == [] then []
    else if Eval(w, db[0]) then [db[0]] + Filter(db[1..], w)
    else Filter(db[1..], w)
  }

  /** The stored records a request asks for, in stored order. */
  function Matches(db: Database, q: SearchParams): (r: Database)
    ensures forall p :: p in r <==> p in db && Satisfies(q, p)
  {
    if db == [] then []
    else if Satisfies(q, db[0]) then [db[0]] + Matches(db[1..], q)
    else Matches(db[1..], q)
  }

  /** A filter that agrees with the request on every record selects its matches. */
  lemma {:induction false} FilterSelectsMatches(db: Database, w: Where, q: SearchParams)
    requires forall p :: Eval(w, p) <==> Satisfies(q, p)
    ensures Filter(db, w) == Matches(db, q)
  {
    if db != [] {
      FilterSelectsMatches(db[1..], w, q);
    }
  }

  /** The matches, hence the total, do not depend on which page is asked for. */
  lemma {:induction false} MatchesIgnorePaging(db: Database, q: SearchParams, page: Option<int>, limit: Option<int>)
    ensures Matches(db, q.(page := page, limit := limit)) == Matches(db, q)
  {
    if db != [] {
      MatchesIgnorePaging(db[1..], q, page, limit);
    }
  }

  // ---------------------------------------------------------------------------
  // Ordering by `provider_name` ascending

  /** No record sorts strictly before an earlier one. */
  predicate SortedByName(s: Database) {
    forall i, j :: 0 <= i < j < |s| ==> !Below(s[j].provider_name, s[i].provider_name)
  }

  /** A record that no later one sorts before can head a sorted list. */
  lemma SortedCons(p: ProviderRecord, s: Database)
    requires SortedByName(s)
    requires forall j :: 0 <= j < |s| ==> !Below(s[j].provider_name, p.provider_name)
    ensures SortedByName([p] + s)
  {
  }

  /** A record named strictly before the head of a sorted list is named
      strictly before every record in it. */
  lemma BeforeHeadIsBeforeAll(p: ProviderRecord, s: Database)
    requires SortedByName(s) && s != [] && Below(p.provider_name, s[0].provider_name)
    ensures forall j :: 0 <= j < |s| ==> !Below(s[j].provider_name, p.provider_name)
  {
    forall j | 0 <= j < |s| ensures !Below(s[j].provider_name, p.provider_name) {
      var a, b, c := p.provider_name, s[0].provider_name, s[j].provider_name;
      BelowTotal(b, c);
      if Below(b, c) {
        BelowTransitive(a, b, c);
      }
      BelowAsymmetric(a, c);
    }
  }

  lemma MultisetMembers(r: Database, s: Database, p: ProviderRecord)
    requires multiset(r) == multiset(s) + multiset{p}
    ensures forall x :: x in r ==> x == p || x in s
  {
    forall x | x in r ensures x == p || x in s {
      assert x in multiset(r);
    }
  }

  /** Every record of `rest`, being `p` or from the tail of `s`, does not sort
      before the head of `s`. */
  lemma NotBeforeHead(s: Database, p: ProviderRecord, rest: Database)
    requires SortedByName(s) && s != [] && !Below(p.provider_name, s[0].provider_name)
    requires forall x :: x in rest ==> x == p || x in s[1..]
    ensures forall k :: 0 <= k < |rest| ==> !Below(rest[k].provider_name, s[0].provider_name)
  {
    forall k | 0 <= k < |rest| ensures !Below(rest[k].provider_name, s[0].provider_name) {
      if rest[k] != p {
        assert rest[k] in s[1..];
        var j :| 0 <= j < |s[1..]| && s[1..][j] == rest[k];
        assert s[j + 1] == rest[k];
      }
    }
  }

  /** Places `p` after every record whose name does not sort after its own, so
      records with equal names keep their relative order. */
  function InsertByName(p: ProviderRecord, s: Database): (r: Database)
    requires SortedByName(s)
    ensures SortedByName(r)
    ensures multiset(r) == multiset(s) + multiset{p}
    decreases |s|
  {
    if s == [] then [p]
    else if Below(p.provider_name, s[0].provider_name) then
      BeforeHeadIsBeforeAll(p, s);
      SortedCons(p, s);
      [p] + s
    else
      var rest := InsertByName(p, s[1..]);
      MultisetMembers(rest, s[1..], p);
      NotBeforeHead(s, p, rest);
      SortedCons(s[0], rest);
      assert s == [s[0]] + s[1..];
      [s[0]] + rest
  }

  /** The records in ascending name order: a permutation of `s`. */
  function SortByName(s: Database): (r: Database)
    ensures SortedByName(r)
    ensures multiset(r) == multiset(s)
  {
    if s == [] then []
    else
      assert s == s[..|s| - 1] + [s[|s| - 1]];
      InsertByName(s[|s| - 1], SortByName(s[..|s| - 1]))
  }

  /** Sorting neither adds nor loses a record. */
  lemma SortKeepsMembers(s: Database)
    ensures forall p :: p in SortByName(s) <==> p in s
  {
    var r := SortByName(s);
    forall p ensures p in r <==> p in s {
      assert p in r <==> p in multiset(r);
      assert p in s <==> p in multiset(s);
    }
  }

  // ---------------------------------------------------------------------------
  // The page

  /** At most `take` records of `s`, starting after the first `skip`. */
  function Window(s: Database, skip: nat, take: nat): (r: Database)
    ensures |r| <= take
    ensures forall p :: p in r ==> p in s
    ensures SortedByName(s) ==> SortedByName(r)
    ensures skip <= |s| ==> r == s[skip..if skip + take <= |s| then skip + take else |s|]
    ensures skip >= |s| ==> r == []
  {
    if skip >= |s| then []
    else if skip + take <= |s| then s[skip..skip + take]
    else s[skip..]
  }

  /** `findMany({ where, skip, take, orderBy: { provider_name: 'asc' } })`.
      A negative `skip` is refused by the storage client, and a negative
      `take` is not modelled: both yield `None`, a storage failure. */
  function FindMany(db: Database, w: Where, skip: int, take: int): (r: Option<Database>)
    ensures r.None? <==> skip < 0 || take < 0
    ensures r.Some? ==> |r.value| <= take && SortedByName(r.value)
    ensures r.Some? ==> forall p :: p in r.value ==> p in db && Eval(w, p)
  {
    if skip < 0 || take < 0 then None
    else
      SortKeepsMembers(Filter(db, w));
      Some(Window(SortByName(Filter(db, w)), skip, take))
  }

  /** `count({ where })` */
  function Count(db: Database, w: Where): (n: nat)
    ensures n <= |db|
    ensures n == 0 <==> forall p :: p in db ==> !Eval(w, p)
  {
    var found := Filter(db, w);
    assert found != [] ==> found[0] in found;
    |found|
  }

  /** The page and count queries of a filter that agrees with the request
      answer for the request's ordered matches. */
  lemma QueriesAnswerRequest(db: Database, w: Where, q: SearchParams)
    requires forall p :: Eval(w, p) <==> Satisfies(q, p)
    ensures Count(db, w) == |Matches(db, q)|
    ensures var found := FindMany(db, w, SkipOf(q), LimitOf(q));
      && (found.None? <==> SkipOf(q) < 0 || LimitOf(q) < 0)
      && (found.Some? ==>
            && found.value == Window(SortByName(Matches(db, q)), SkipOf(q), LimitOf(q))
            && |found.value| <= LimitOf(q)
            && SortedByName(found.value)
            && forall p :: p in found.value ==> p in db && Satisfies(q, p))
  {
    FilterSelectsMatches(db, w, q);
    SortKeepsMembers(Matches(db, q));
  }

  /** Handles a search request against the snapshot `db`; `None` is the
      storage failure that the caller reports as a server error. */
  method SearchProviders(db: Database, q: SearchParams) returns (r: Option<SearchResponse>)
    ensures r.None? <==> SkipOf(q) < 0 || LimitOf(q) < 0
    ensures r.Some? ==> r.value.page == PageOf(q) && r.value.limit == LimitOf(q)
    ensures r.Some? ==> r.value.total == |Matches(db, q)|
    ensures r.Some? ==> |r.value.providers| <= LimitOf(q)
    ensures r.Some? ==> r.value.providers == Window(SortByName(Matches(db, q)), SkipOf(q), LimitOf(q))
    ensures r.Some? ==> SortedByName(r.value.providers)
    ensures r.Some? ==> forall p :: p in r.value.providers ==> p in db && Satisfies(q, p)
  {
    var w := BuildWhere(q);
    var page := PageOf(q);
    var limit := LimitOf(q);
    QueriesAnswerRequest(db, w, q);
    var skip := (page - 1) * limit;
    assert skip == SkipOf(q);
    var providers := FindMany(db, w, skip, limit);
    var total := Count(db, w);
    if providers.None? {
      return None;
    }
    r := Some(SearchResponse(providers.value, total, page, limit));
  }

  lemma EntryOfWindow(s: Database, skip: nat, take: nat, m: nat)
    requires m < take && skip + m < |s|
    ensures m < |Window(s, skip, take)| && Window(s, skip, take)[m] == s[skip + m]
  {
  }

  lemma PageStart(i: int, limit: int)
    requires limit > 0 && i >= 0
    ensures 0 <= (i / limit) * limit && (i / limit) * limit + i % limit == i && 0 <= i % limit < limit
  {
  }

  /** Within one fixed order `s`, position `i` is entry `i % limit` of the
      window of page `i / limit + 1`. */
  lemma PositionOnPage(s: Database, limit: int, i: int)
    requires limit > 0 && 0 <= i < |s|
    ensures 0 <= (i / limit) * limit
    ensures var page := Window(s, (i / limit) * limit, limit);
            i % limit < |page| && page[i % limit] == s[i]
  {
    PageStart(i, limit);
    EntryOfWindow(s, (i / limit) * limit, limit, i % limit);
  }

  // ---------------------------------------------------------------------------
  // Separate page queries and ties

  /** No two different records of `s` share a `provider_name`. */
  predicate UniqueNames(s: Database) {
    forall x, y :: x in s && y in s && x.provider_name == y.provider_name ==> x == y
  }

  lemma SortedHeadIsLeast(s: Database, x: ProviderRecord)
    requires SortedByName(s) && s != [] && x in s
    ensures !Below(x.provider_name, s[0].provider_name)
  {
    var k :| 0 <= k < |s| && s[k] == x;
    if k != 0 {
      assert !Below(s[k].provider_name, s[0].provider_name);
    } else {
      BelowIrreflexive(x.provider_name);
    }
  }

  lemma SortedTail(s: Database)
    requires SortedByName(s) && s != []
    ensures SortedByName(s[1..])
  {
    forall i, j | 0 <= i < j < |s| - 1 ensures !Below(s[1..][j].provider_name, s[1..][i].provider_name) {
      assert s[1..][j] == s[j + 1] && s[1..][i] == s[i + 1];
    }
  }

  /** Two name-ordered arrangements of the same records, names unique, start
      with the same record. */
  lemma SameHead(a: Database, b: Database)
    requires SortedByName(a) && SortedByName(b) && a != [] && b != []
    requires multiset(a) == multiset(b) && UniqueNames(a)
    ensures a[0] == b[0]
  {
    assert a[0] in multiset(b) && b[0] in multiset(a);
    SortedHeadIsLeast(a, b[0]);
    SortedHeadIsLeast(b, a[0]);
    BelowTotal(a[0].provider_name, b[0].provider_name);
  }

  lemma SameTail(a: Database, b: Database)
    requires a != [] && b != [] && a[0] == b[0] && multiset(a) == multiset(b)
    ensures multiset(a[1..]) == multiset(b[1..])
  {
    assert a == [a[0]] + a[1..] && b == [b[0]] + b[1..];
    assert multiset(a) == multiset{a[0]} + multiset(a[1..]);
    assert multiset(b) == multiset{b[0]} + multiset(b[1..]);
    assert multiset(a[1..]) == multiset(a) - multiset{a[0]};
    assert multiset(b[1..]) == multiset(b) - multiset{b[0]};
  }

  /** When names are unique, `orderBy: { provider_name: 'asc' }` leaves the
      database no choice: two name-ordered arrangements of the same records
      are equal. */
  lemma {:induction false} NameOrderIsForced(a: Database, b: Database)
    requires SortedByName(a) && SortedByName(b)
    requires multiset(a) == multiset(b)
    requires UniqueNames(a)
    ensures a == b
    decreases |a|
  {
    assert |b| == |multiset(b)| == |multiset(a)| == |a|;
    if a != [] {
      SameHead(a, b);
      SameTail(a, b);
      SortedTail(a);
      SortedTail(b);
      assert UniqueNames(a[1..]) by {
        forall x | x in a[1..] ensures x in a {
          var k :| 0 <= k < |a[1..]| && a[1..][k] == x;
          assert a[k + 1] == x;
        }
      }
      NameOrderIsForced(a[1..], b[1..]);
      assert a == [a[0]] + a[1..] && b == [b[0]] + b[1..];
    }
  }

  /** Each page is a query of its own, free to order its rows as it likes
      among those `provider_name` ranks equally. When no two matches share a
      name, no match is skipped or repeated across pages: whatever name-ordered
      arrangement `order` the database uses for the page query, the `i`-th
      match in name order is entry `i % limit` of page `i / limit + 1`. */
  lemma EveryMatchIsOnItsPage(db: Database, q: SearchParams, order: Database, limit: int, i: int)
    requires UniqueNames(Matches(db, q))
    requires SortedByName(order) && multiset(order) == multiset(Matches(db, q))
    requires limit > 0 && 0 <= i < |order|
    ensures 0 <= (i / limit) * limit
    ensures var page := Window(order, (i / limit) * limit, limit);
            i % limit < |page| && page[i % limit] == SortByName(Matches(db, q))[i]
  {
    var m := Matches(db, q);
    var sorted := SortByName(m);
    assert UniqueNames(sorted) by {
      forall x | x in sorted ensures x in m {
        assert x in multiset(sorted);
      }
    }
    NameOrderIsForced(sorted, order);
    PositionOnPage(order, limit, i);
  }

  function Named(npi: string, name: string): ProviderRecord {
    ProviderRecord(npi, name, None, None, None, None, None, None, None, None, None, None, None,
                   None, None, None, None, None, None, [], [])
  }

  /** With a shared name the order is not forced: two records named "X" are
      name-ordered either way round, and the first page of one record then
      differs between the two arrangements, so two page queries may show the
      same record twice and never show the other. */
  lemma TiedNamesLeaveOrderOpen()
    ensures var a, b := Named("1", "X"), Named("2", "X");
      && SortedByName([a, b]) && SortedByName([b, a])
      && multiset([a, b]) == multiset([b, a])
      && Window([a, b], 0, 1) != Window([b, a], 0, 1)
      && Window([a, b], 0, 1) == Window([b, a], 1, 1)
  {
    var a, b := Named("1", "X"), Named("2", "X");
    BelowIrreflexive("X");
    assert Window([a, b], 0, 1) == [a];
    assert Window([b, a], 0, 1) == [b];
  }
}
