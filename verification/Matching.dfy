/**
 Matching the buyers and sellers of one segment.

 `MatchBuyers` is the code's loop over sorted buyers with a seller pointer.
 `Auction` says in closed form, from sets of participants only, who trades; and
 `GreedyIsAuction` connects the two.
 */
module Matching {
  import opened Ordering
  import opened Numbers
  import opened Market

  /* ---------- who trades: the closed form of the greedy matcher ---------- */

  ghost function Payers(people: People, price: int): set<string> {
    set p | p in people && people[p].capital >= price
  }

  ghost function Stockists(people: People): set<string> {
    set p | p in people && people[p].holdings > 0
  }

  /** The buyers and sellers of one segment, its trade limit and its new price. */
  datatype Auction = Auction(buyers: set<string>, sellers: set<string>, limit: nat, price: int) {

    ghost function Demand(people: People): set<string> { buyers * Payers(people, price) }

    ghost function Supply(people: People): set<string> { sellers * Stockists(people) }

    /** Without sellers the market itself supplies units, up to the limit. */
    ghost function Cleared(people: People): nat {
      Min(limit, if sellers == {} then |Demand(people)| else Min(|Demand(people)|, |Supply(people)|))
    }

    /** The first affordable buyers in id order. */
    ghost function BuyWinners(people: People): seq<string> {
      SortedIds(Demand(people))[..Cleared(people)]
    }

    /** The first stocked sellers in id order; none when the market supplies the units. */
    ghost function SellWinners(people: People): seq<string> {
      SortedIds(Supply(people))[..if sellers == {} then 0 else Cleared(people)]
    }
  }

  function Paid(p: Participant, price: int): Participant {
    p.(capital := p.capital - price, holdings := p.holdings + 1)
  }

  function Sold(p: Participant, price: int): Participant {
    p.(capital := p.capital + price, holdings := p.holdings - 1)
  }

  predicate Known(people: People, ids: seq<string>) {
    forall p :: p in ids ==> p in people
  }

  function Get(changes: map<string, int>, p: string): int {
    if p in changes then changes[p] else 0
  }

  /** The participants and the two change books that a round keeps beside them. */
  datatype Books = Books(people: People, capital: map<string, int>, holdings: map<string, int>) {

    function Buy(p: string, price: int): Books
      requires p in people
    {
      Books(people[p := Paid(people[p], price)],
            capital[p := Get(capital, p) - price],
            holdings[p := Get(holdings, p) + 1])
    }

    function Sell(p: string, price: int): Books
      requires p in people
    {
      Books(people[p := Sold(people[p], price)],
            capital[p := Get(capital, p) + price],
            holdings[p := Get(holdings, p) - 1])
    }

    /** After `n` trades: buyer k with seller k, or with the market when there are no sellers. */
    ghost function After(n: nat, bs: seq<string>, ss: seq<string>, price: int): (after: Books)
      requires n <= |bs| && (ss == [] || n <= |ss|) && Known(people, bs) && Known(people, ss)
      ensures after.people.Keys == people.Keys
      decreases n
    {
      if n == 0 then this else
        var bought := Buy(bs[0], price);
        if ss == [] then bought.After(n - 1, bs[1..], [], price)
        else bought.Sell(ss[0], price).After(n - 1, bs[1..], ss[1..], price)
    }
  }

  /* ---------- the matching loop ---------- */

  /** `[x for x in xs if x in keep]` */
  ghost function Filter(xs: seq<string>, keep: set<string>): seq<string> {
    if xs == [] then [] else if xs[0] in keep then [xs[0]] + Filter(xs[1..], keep) else Filter(xs[1..], keep)
  }

  lemma {:induction false} FilterIn(xs: seq<string>, keep: set<string>)
    ensures forall x :: x in Filter(xs, keep) <==> x in xs && x in keep
  {
    if xs != [] { FilterIn(xs[1..], keep); }
  }

  lemma {:induction false} FilterAgree(xs: seq<string>, keep: set<string>, keep': set<string>)
    requires forall x :: x in xs ==> (x in keep <==> x in keep')
    ensures Filter(xs, keep) == Filter(xs, keep')
  {
    if xs != [] { FilterAgree(xs[1..], keep, keep'); }
  }

  lemma {:induction false} FilterSorted(xs: seq<string>, keep: set<string>)
    requires StrictlySorted(Less, xs)
    ensures StrictlySorted(Less, Filter(xs, keep))
  {
    if xs != [] {
      FilterSorted(xs[1..], keep);
      FilterIn(xs[1..], keep);
      var kept := Filter(xs[1..], keep);
      forall j | 0 <= j < |kept| ensures Less(xs[0], kept[j]) {
        assert kept[j] in kept;
        var i :| 0 <= i < |xs| - 1 && xs[1..][i] == kept[j];
        assert xs[i + 1] == kept[j];
      }
    }
  }

  /** Filtering the sorted list of `s` lists the kept part of `s`. */
  lemma FilterSortedIds(s: set<string>, keep: set<string>)
    ensures Filter(SortedIds(s), keep) == SortedIds(s * keep)
  {
    StringOrder();
    var xs := SortedIds(s);
    FilterSorted(xs, keep);
    FilterIn(xs, keep);
    assert forall x :: x in xs <==> x in Elements(xs);
    SortedUnique(Less, Filter(xs, keep), SortedIds(s * keep));
  }

  /** What the loop does from here on, one decision at a time. */
  ghost function Greedy(buyers: seq<string>, sellers: seq<string>, natural: bool, limit: nat, price: int,
                        books: Books, matches: nat): (Books, nat)
    requires Known(books.people, buyers) && Known(books.people, sellers)
    decreases |buyers| + |sellers|
  {
    if buyers == [] || matches >= limit then
      (books, matches)
    else if books.people[buyers[0]].capital < price then
      Greedy(buyers[1..], sellers, natural, limit, price, books, matches)
    else if sellers != [] && books.people[sellers[0]].holdings <= 0 then
      Greedy(buyers, sellers[1..], natural, limit, price, books, matches)
    else if sellers == [] && !natural then
      (books, matches)
    else
      var bought := books.Buy(buyers[0], price);
      if sellers == [] then Greedy(buyers[1..], [], natural, limit, price, bought, matches + 1)
      else Greedy(buyers[1..], sellers[1..], natural, limit, price, bought.Sell(sellers[0], price), matches + 1)
  }

  ghost function ListCleared(limit: nat, affordable: seq<string>, natural: bool, stocked: seq<string>): nat {
    Min(limit, if natural then |affordable| else Min(|affordable|, |stocked|))
  }

  /** `outcome` is what trading off the given lists from the front gives. */
  ghost predicate TradesOff(outcome: (Books, nat), affordable: seq<string>, stocked: seq<string>, natural: bool,
                            limit: nat, price: int, books: Books, matches: nat)
    requires matches <= limit && (natural ==> stocked == [])
  {
    var n := ListCleared(limit - matches, affordable, natural, stocked);
    && Known(books.people, affordable) && Known(books.people, stocked)
    && outcome == (books.After(n, affordable, stocked, price), matches + n)
  }

  /** The greedy decisions amount to trading off the filtered lists from the front. */
  lemma {:induction false} GreedyClosed(buyers: seq<string>, sellers: seq<string>, natural: bool, limit: nat, price: int,
                                        books: Books, matches: nat)
    requires Apart(buyers, sellers) && Known(books.people, buyers) && Known(books.people, sellers)
    requires matches <= limit && (natural ==> sellers == [])
    ensures TradesOff(Greedy(buyers, sellers, natural, limit, price, books, matches),
                      Filter(buyers, Payers(books.people, price)), Filter(sellers, Stockists(books.people)),
                      natural, limit, price, books, matches)
    decreases |buyers| + |sellers|
  {
    if buyers == [] || matches == limit || (sellers == [] && !natural) {
      FilterIn(buyers, Payers(books.people, price));
      FilterIn(sellers, Stockists(books.people));
      GreedyStops(buyers, natural, limit, price, books, matches);
    } else if buyers[0] !in Payers(books.people, price) {
      TailIn(buyers);
      GreedyClosed(buyers[1..], sellers, natural, limit, price, books, matches);
    } else if sellers != [] && sellers[0] !in Stockists(books.people) {
      TailIn(sellers);
      GreedyClosed(buyers, sellers[1..], natural, limit, price, books, matches);
    } else {
      GreedyTrade(buyers, sellers, natural, limit, price, books, matches);
    }
  }

  /** At the limit, or with no seller left, no further buyer trades. */
  lemma {:induction false} GreedyStops(buyers: seq<string>, natural: bool, limit: nat, price: int, books: Books, matches: nat)
    requires Known(books.people, buyers)
    ensures !natural ==> Greedy(buyers, [], natural, limit, price, books, matches) == (books, matches)
  {
    if buyers != [] {
      TailIn(buyers);
      GreedyStops(buyers[1..], natural, limit, price, books, matches);
    }
  }

  lemma TailIn<T>(xs: seq<T>)
    requires xs != []
    ensures forall x :: x in xs[1..] ==> x in xs
    ensures Distinct(xs) ==> Distinct(xs[1..]) && xs[0] !in xs[1..]
  {}

  /** The filtered lists before and after the first buyer trades with the first seller. */
  lemma FilterAfterTrade(buyers: seq<string>, sellers: seq<string>, price: int, books: Books, books': Books)
    requires Apart(buyers, sellers) && Known(books.people, buyers) && Known(books.people, sellers) && buyers != []
    requires buyers[0] in Payers(books.people, price) && (sellers != [] ==> sellers[0] in Stockists(books.people))
    requires books' == var bought := books.Buy(buyers[0], price);
                       if sellers == [] then bought else bought.Sell(sellers[0], price)
    ensures Filter(buyers, Payers(books.people, price)) == [buyers[0]] + Filter(buyers[1..], Payers(books'.people, price))
    ensures sellers != [] ==>
      Filter(sellers, Stockists(books.people)) == [sellers[0]] + Filter(sellers[1..], Stockists(books'.people))
  {
    TailIn(buyers);
    assert buyers[0] !in sellers;
    if sellers != [] {
      TailIn(sellers);
      assert sellers[0] !in buyers;
    }
    FilterAgree(buyers[1..], Payers(books.people, price), Payers(books'.people, price));
    if sellers != [] {
      FilterAgree(sellers[1..], Stockists(books.people), Stockists(books'.people));
    }
  }

  lemma {:induction false} GreedyTrade(buyers: seq<string>, sellers: seq<string>, natural: bool, limit: nat, price: int,
                                       books: Books, matches: nat)
    requires Apart(buyers, sellers) && Known(books.people, buyers) && Known(books.people, sellers)
    requires matches < limit && natural == (sellers == []) && buyers != []
    requires buyers[0] in Payers(books.people, price) && (sellers != [] ==> sellers[0] in Stockists(books.people))
    ensures TradesOff(Greedy(buyers, sellers, natural, limit, price, books, matches),
                      Filter(buyers, Payers(books.people, price)), Filter(sellers, Stockists(books.people)),
                      natural, limit, price, books, matches)
    decreases |buyers| + |sellers|, 0
  {
    var bought := books.Buy(buyers[0], price);
    var sellers' := if natural then [] else sellers[1..];
    var books' := if natural then bought else bought.Sell(sellers[0], price);
    assert Apart(buyers[1..], sellers') && Known(books'.people, buyers[1..]) && Known(books'.people, sellers') by {
      TailIn(buyers);
      if !natural { TailIn(sellers); }
    }
    FilterAfterTrade(buyers, sellers, price, books, books');
    GreedyClosed(buyers[1..], sellers', natural, limit, price, books', matches + 1);
    var outcome := Greedy(buyers[1..], sellers', natural, limit, price, books', matches + 1);
    var affordable' := Filter(buyers[1..], Payers(books'.people, price));
    if natural {
      NaturalThenRest(outcome, buyers[0], affordable', limit, price, books, matches);
    } else {
      var stocked' := Filter(sellers', Stockists(books'.people));
      MatchThenRest(outcome, buyers[0], affordable', sellers[0], stocked', limit, price, books, matches);
    }
  }

  lemma AfterBuy(books: Books, n: nat, b: string, bs: seq<string>, price: int)
    requires n <= |bs| && b in books.people && Known(books.people, bs)
    ensures Known(books.people, [b] + bs)
    ensures books.After(n + 1, [b] + bs, [], price) == books.Buy(b, price).After(n, bs, [], price)
  {
    hide Books.Buy;
    assert ([b] + bs)[0] == b && ([b] + bs)[1..] == bs;
  }

  lemma AfterPair(books: Books, n: nat, b: string, bs: seq<string>, s: string, ss: seq<string>, price: int)
    requires n <= |bs| && n <= |ss| && b in books.people && s in books.people
    requires Known(books.people, bs) && Known(books.people, ss)
    ensures Known(books.people, [b] + bs) && Known(books.people, [s] + ss)
    ensures books.After(n + 1, [b] + bs, [s] + ss, price) == books.Buy(b, price).Sell(s, price).After(n, bs, ss, price)
  {
    assert ([b] + bs)[0] == b && ([b] + bs)[1..] == bs;
    assert ([s] + ss)[0] == s && ([s] + ss)[1..] == ss;
  }

  /** A trade with the market, followed by the trades of the rest. */
  lemma NaturalThenRest(outcome: (Books, nat), b: string, bs: seq<string>, limit: nat, price: int, books: Books, matches: nat)
    requires b in books.people && matches < limit
    requires TradesOff(outcome, bs, [], true, limit, price, books.Buy(b, price), matches + 1)
    ensures TradesOff(outcome, [b] + bs, [], true, limit, price, books, matches)
  {
    hide Books.After;
    AfterBuy(books, ListCleared(limit - matches - 1, bs, true, []), b, bs, price);
  }

  /** A trade with a seller, followed by the trades of the rest. */
  lemma MatchThenRest(outcome: (Books, nat), b: string, bs: seq<string>, s: string, ss: seq<string>,
                      limit: nat, price: int, books: Books, matches: nat)
    requires b in books.people && s in books.people && matches < limit
    requires TradesOff(outcome, bs, ss, false, limit, price, books.Buy(b, price).Sell(s, price), matches + 1)
    ensures TradesOff(outcome, [b] + bs, [s] + ss, false, limit, price, books, matches)
  {
    hide Books.After;
    AfterPair(books, ListCleared(limit - matches - 1, bs, false, ss), b, bs, s, ss, price);
  }

  ghost predicate Apart(buyers: seq<string>, sellers: seq<string>) {
    && Distinct(buyers) && Distinct(sellers)
    && forall b :: b in buyers ==> b !in sellers
  }

  /* The decisions of the loop at position `i` of the buyers and `next` of the sellers. */

  lemma GreedyEnds(buyers: seq<string>, i: nat, sellers: seq<string>, natural: bool, limit: nat, price: int,
                   books: Books, matches: nat)
    requires i <= |buyers| && (i == |buyers| || matches >= limit)
    requires Known(books.people, buyers) && Known(books.people, sellers)
    ensures Greedy(buyers[i..], sellers, natural, limit, price, books, matches) == (books, matches)
  {}

  lemma GreedyPoor(buyers: seq<string>, i: nat, sellers: seq<string>, natural: bool, limit: nat, price: int,
                   books: Books, matches: nat)
    requires i < |buyers| && matches < limit && Known(books.people, buyers) && Known(books.people, sellers)
    requires books.people[buyers[i]].capital < price
    ensures Greedy(buyers[i..], sellers, natural, limit, price, books, matches) ==
            Greedy(buyers[i + 1..], sellers, natural, limit, price, books, matches)
  {
    assert buyers[i..][0] == buyers[i] && buyers[i..][1..] == buyers[i + 1..];
  }

  lemma GreedyEmpty(buyers: seq<string>, sellers: seq<string>, next: nat, natural: bool, limit: nat, price: int,
                    books: Books, matches: nat)
    requires buyers != [] && matches < limit && next < |sellers|
    requires Known(books.people, buyers) && Known(books.people, sellers)
    requires books.people[buyers[0]].capital >= price && books.people[sellers[next]].holdings <= 0
    ensures Greedy(buyers, sellers[next..], natural, limit, price, books, matches) ==
            Greedy(buyers, sellers[next + 1..], natural, limit, price, books, matches)
  {
    assert sellers[next..][0] == sellers[next] && sellers[next..][1..] == sellers[next + 1..];
  }

  lemma GreedyRunsOut(buyers: seq<string>, limit: nat, price: int, books: Books, matches: nat)
    requires buyers != [] && matches < limit && Known(books.people, buyers)
    requires books.people[buyers[0]].capital >= price
    ensures Greedy(buyers, [], false, limit, price, books, matches) == (books, matches)
  {}

  lemma GreedyBuys(buyers: seq<string>, i: nat, limit: nat, price: int, books: Books, matches: nat)
    requires i < |buyers| && matches < limit && Known(books.people, buyers)
    requires books.people[buyers[i]].capital >= price
    ensures Greedy(buyers[i..], [], true, limit, price, books, matches) ==
            Greedy(buyers[i + 1..], [], true, limit, price, books.Buy(buyers[i], price), matches + 1)
  {
    assert buyers[i..][0] == buyers[i] && buyers[i..][1..] == buyers[i + 1..];
  }

  lemma GreedyPairs(buyers: seq<string>, i: nat, sellers: seq<string>, next: nat, natural: bool, limit: nat, price: int,
                    books: Books, matches: nat)
    requires i < |buyers| && next < |sellers| && matches < limit
    requires Known(books.people, buyers) && Known(books.people, sellers)
    requires books.people[buyers[i]].capital >= price && books.people[sellers[next]].holdings > 0
    ensures Greedy(buyers[i..], sellers[next..], natural, limit, price, books, matches) ==
            Greedy(buyers[i + 1..], sellers[next + 1..], natural, limit, price,
                   books.Buy(buyers[i], price).Sell(sellers[next], price), matches + 1)
  {
    assert buyers[i..][0] == buyers[i] && buyers[i..][1..] == buyers[i + 1..];
    assert sellers[next..][0] == sellers[next] && sellers[next..][1..] == sellers[next + 1..];
  }

  /** The greedy loop over the sorted buyers of one segment. */
  method MatchBuyers(buyers: seq<string>, sellers: seq<string>, limit: nat, price: int, start: Books)
    returns (books: Books, matches: nat)
    requires Known(start.people, buyers) && Known(start.people, sellers)
    ensures (books, matches) == Greedy(buyers, sellers, sellers == [], limit, price, start, 0)
  {
    hide Greedy;
    var natural := sellers == [];
    books, matches := start, 0;
    var next, i := 0, 0;
    assert buyers[0..] == buyers && sellers[0..] == sellers;
    while i < |buyers|
      invariant 0 <= i <= |buyers| && 0 <= next <= |sellers|
      invariant books.people.Keys == start.people.Keys
      invariant Greedy(buyers[i..], sellers[next..], natural, limit, price, books, matches) ==
                Greedy(buyers, sellers, natural, limit, price, start, 0)
    {
      if matches >= limit {
        break;
      }
      var buyerId := buyers[i];
      if books.people[buyerId].capital < price {
        GreedyPoor(buyers, i, sellers[next..], natural, limit, price, books, matches);
        i := i + 1;
        continue;
      }
      while next < |sellers| && books.people[sellers[next]].holdings <= 0
        invariant 0 <= next <= |sellers|
        invariant Greedy(buyers[i..], sellers[next..], natural, limit, price, books, matches) ==
                  Greedy(buyers, sellers, natural, limit, price, start, 0)
      {
        GreedyEmpty(buyers[i..], sellers, next, natural, limit, price, books, matches);
        next := next + 1;
      }
      if next >= |sellers| && !natural {
        GreedyRunsOut(buyers[i..], limit, price, books, matches);
        return;
      }
      if next < |sellers| {
        GreedyPairs(buyers, i, sellers, next, natural, limit, price, books, matches);
      } else {
        GreedyBuys(buyers, i, limit, price, books, matches);
      }
      books := books.Buy(buyerId, price);
      if next < |sellers| {
        books := books.Sell(sellers[next], price);
        next := next + 1;
      }
      matches := matches + 1;
      i := i + 1;
    }
    GreedyEnds(buyers, i, sellers[next..], natural, limit, price, books, matches);
  }

  /* ---------- one segment: the loop against the auction ---------- */

  lemma SortedKnown(people: People, s: set<string>)
    requires s <= people.Keys
    ensures Known(people, SortedIds(s))
  {
    var xs := SortedIds(s);
    forall p | p in xs ensures p in people { assert p in Elements(xs); }
  }

  /** The books after the auction of one segment. */
  ghost function AfterAuction(a: Auction, books: Books): (after: Books)
    ensures after.people.Keys == books.people.Keys
  {
    var bs, ss := SortedIds(a.Demand(books.people)), SortedIds(a.Supply(books.people));
    SortedKnown(books.people, a.Demand(books.people));
    SortedKnown(books.people, a.Supply(books.people));
    books.After(a.Cleared(books.people), bs, ss, a.price)
  }

  lemma SortedApart(xs: seq<string>, ys: seq<string>)
    requires StrictlySorted(Less, xs) && StrictlySorted(Less, ys) && Elements(xs) !! Elements(ys)
    ensures Apart(xs, ys)
  {
    StringOrder();
    StrictlySortedDistinct(Less, xs);
    StrictlySortedDistinct(Less, ys);
    assert forall x :: x in xs ==> x in Elements(xs);
    assert forall y :: y in ys ==> y in Elements(ys);
  }

  lemma FilterOfSorted(xs: seq<string>, keep: set<string>)
    requires StrictlySorted(Less, xs)
    ensures Filter(xs, keep) == SortedIds(Elements(xs) * keep)
    ensures xs == [] <==> Elements(xs) == {}
  {
    StringOrder();
    SortedSetUnique(Less, xs);
    FilterSortedIds(Elements(xs), keep);
    if xs != [] { assert xs[0] in Elements(xs); }
  }

  /** The matching loop carries out the auction among its buyers and sellers. */
  lemma GreedyIsAuction(buyers: seq<string>, sellers: seq<string>, limit: nat, price: int, books: Books)
    requires StrictlySorted(Less, buyers) && StrictlySorted(Less, sellers) && Elements(buyers) !! Elements(sellers)
    requires Known(books.people, buyers) && Known(books.people, sellers)
    ensures var a := Auction(Elements(buyers), Elements(sellers), limit, price);
            Greedy(buyers, sellers, sellers == [], limit, price, books, 0) == (AfterAuction(a, books), a.Cleared(books.people))
  {
    SortedApart(buyers, sellers);
    FilterOfSorted(buyers, Payers(books.people, price));
    FilterOfSorted(sellers, Stockists(books.people));
    GreedyClosed(buyers, sellers, sellers == [], limit, price, books, 0);
  }

  /** How the standing of `p` differs between two states of the books. */
  ghost predicate Moved(before: Books, after: Books, p: string, buys: bool, sells: bool, price: int) {
    && (p in after.people <==> p in before.people)
    && (p in before.people ==>
          after.people[p] == (if buys then Paid(before.people[p], price)
                              else if sells then Sold(before.people[p], price)
                              else before.people[p]))
    && (p in after.capital <==> p in before.capital || buys || sells)
    && Get(after.capital, p) == Get(before.capital, p) + (if buys then -price else if sells then price else 0)
    && (p in after.holdings <==> p in before.holdings || buys || sells)
    && Get(after.holdings, p) == Get(before.holdings, p) + (if buys then 1 else if sells then -1 else 0)
  }

  /** `p` is among the first `n` of `xs`. */
  predicate Wins(xs: seq<string>, n: nat, p: string) {
    n <= |xs| && p in xs[..n]
  }

  lemma WinsSplit(xs: seq<string>, n: nat, p: string)
    requires 0 < n <= |xs|
    ensures Wins(xs, n, p) <==> p == xs[0] || Wins(xs[1..], n - 1, p)
    ensures Wins(xs[1..], n - 1, p) ==> p in xs[1..]
    ensures Distinct(xs) ==> !(p == xs[0] && Wins(xs[1..], n - 1, p))
  {
    assert xs[..n] == [xs[0]] + xs[1..][..n - 1];
  }

  lemma NobodyWins(xs: seq<string>, p: string, n: nat)
    ensures !Wins(xs, 0, p)
    ensures xs == [] ==> !Wins(xs, n, p)
  {}

  /** What a trade with the market, and then `n - 1` more, do to one participant. */
  lemma AfterBuyAt(books: Books, n: nat, bs: seq<string>, price: int, p: string, later: Books)
    requires Distinct(bs) && 0 < n <= |bs| && bs[0] in books.people
    requires Moved(books.Buy(bs[0], price), later, p, Wins(bs[1..], n - 1, p), false, price)
    ensures Moved(books, later, p, Wins(bs, n, p), false, price)
  {
    hide Moved, Books.Buy, Wins;
    WinsSplit(bs, n, p);
    MovedByBuy(books, bs[0], price, p);
    MovedTwice(books, books.Buy(bs[0], price), later, p, p == bs[0], false, Wins(bs[1..], n - 1, p), false, price);
  }

  /** What a trade of a buyer with a seller, and then `n - 1` more, do to one participant. */
  lemma AfterPairAt(books: Books, n: nat, bs: seq<string>, ss: seq<string>, price: int, p: string, later: Books)
    requires Apart(bs, ss) && 0 < n <= |bs| && n <= |ss| && bs[0] in books.people && ss[0] in books.people
    requires Moved(books.Buy(bs[0], price).Sell(ss[0], price), later, p, Wins(bs[1..], n - 1, p), Wins(ss[1..], n - 1, p), price)
    ensures Moved(books, later, p, Wins(bs, n, p), Wins(ss, n, p), price)
  {
    hide Moved, Books.Sell, Wins;
    WinsSplit(bs, n, p);
    WinsSplit(ss, n, p);
    PairApart(bs, ss);
    MovedByPair(books, bs[0], ss[0], price, p);
    MovedTwice(books, books.Buy(bs[0], price).Sell(ss[0], price), later, p, p == bs[0], p == ss[0],
               Wins(bs[1..], n - 1, p), Wins(ss[1..], n - 1, p), price);
  }

  lemma TailApart(bs: seq<string>, ss: seq<string>)
    requires Apart(bs, ss) && bs != []
    ensures Apart(bs[1..], ss) && (ss != [] ==> Apart(bs[1..], ss[1..]))
  {
    TailIn(bs);
    if ss != [] { TailIn(ss); }
  }

  lemma AfterOneBuy(books: Books, n: nat, bs: seq<string>, price: int)
    requires 0 < n <= |bs| && Known(books.people, bs)
    ensures Known(books.Buy(bs[0], price).people, bs[1..])
    ensures books.After(n, bs, [], price) == books.Buy(bs[0], price).After(n - 1, bs[1..], [], price)
  {
    assert forall p :: p in bs[1..] ==> p in bs;
  }

  lemma AfterOnePair(books: Books, n: nat, bs: seq<string>, ss: seq<string>, price: int)
    requires 0 < n <= |bs| && n <= |ss| && Known(books.people, bs) && Known(books.people, ss)
    ensures ss[0] in books.Buy(bs[0], price).people
    ensures var sold := books.Buy(bs[0], price).Sell(ss[0], price);
            && Known(sold.people, bs[1..]) && Known(sold.people, ss[1..])
            && books.After(n, bs, ss, price) == sold.After(n - 1, bs[1..], ss[1..], price)
  {
    assert forall p :: p in bs[1..] ==> p in bs;
    assert forall p :: p in ss[1..] ==> p in ss;
  }

  lemma AfterNone(books: Books, bs: seq<string>, ss: seq<string>, price: int)
    requires Known(books.people, bs) && Known(books.people, ss)
    ensures books.After(0, bs, ss, price) == books
  {}

  /** What `n` trades off the front of two lists do to one participant; without sellers the market sells. */
  lemma {:induction false} AfterAt(books: Books, n: nat, bs: seq<string>, ss: seq<string>, price: int, p: string)
    requires Apart(bs, ss) && Known(books.people, bs) && Known(books.people, ss)
    requires n <= |bs| && (ss == [] || n <= |ss|)
    ensures Moved(books, books.After(n, bs, ss, price), p, Wins(bs, n, p), Wins(ss, n, p), price)
    decreases n
  {
    hide Moved, Wins, Apart, Books.After, Books.Buy, Books.Sell;
    BothDistinct(bs, ss);
    NobodyWins(bs, p, n);
    NobodyWins(ss, p, n);
    if n == 0 {
      AfterNone(books, bs, ss, price);
      NotMoved(books, p, price);
    } else if ss == [] {
      TailApart(bs, ss);
      NobodyWins(ss, p, n - 1);
      AfterOneBuy(books, n, bs, price);
      AfterAt(books.Buy(bs[0], price), n - 1, bs[1..], [], price, p);
      AfterBuyAt(books, n, bs, price, p, books.After(n, bs, ss, price));
    } else {
      TailApart(bs, ss);
      AfterOnePair(books, n, bs, ss, price);
      AfterAt(books.Buy(bs[0], price).Sell(ss[0], price), n - 1, bs[1..], ss[1..], price, p);
      AfterPairAt(books, n, bs, ss, price, p, books.After(n, bs, ss, price));
    }
  }

  lemma BothDistinct(bs: seq<string>, ss: seq<string>)
    requires Apart(bs, ss)
    ensures Distinct(bs) && Distinct(ss)
  {}

  lemma NotMoved(books: Books, p: string, price: int)
    ensures Moved(books, books, p, false, false, price)
  {}

  lemma PairApart(bs: seq<string>, ss: seq<string>)
    requires Apart(bs, ss) && bs != [] && ss != []
    ensures bs[0] != ss[0] && bs[0] !in ss[1..] && ss[0] !in bs[1..]
  {
    assert bs[0] in bs && ss[0] in ss;
    assert forall x :: x in ss[1..] ==> x in ss;
    assert forall x :: x in bs[1..] ==> x in bs;
  }

  lemma MovedByBuy(books: Books, b: string, price: int, p: string)
    requires b in books.people
    ensures Moved(books, books.Buy(b, price), p, p == b, false, price)
  {}

  /** Two moves of which at most one concerns `p`. */
  lemma MovedTwice(b0: Books, b1: Books, b2: Books, p: string, buys: bool, sells: bool, buys': bool, sells': bool, price: int)
    requires Moved(b0, b1, p, buys, sells, price) && Moved(b1, b2, p, buys', sells', price)
    requires !(buys || sells) || !(buys' || sells')
    ensures Moved(b0, b2, p, buys || buys', sells || sells', price)
  {}

  lemma MovedByPair(books: Books, b: string, s: string, price: int, p: string)
    requires b in books.people && s in books.people && b != s
    ensures Moved(books, books.Buy(b, price).Sell(s, price), p, p == b, p == s, price)
  {}

  lemma TradersKnown(a: Auction, people: People)
    ensures a.Demand(people) <= people.Keys && a.Supply(people) <= people.Keys
    ensures a.Demand(people) <= a.buyers && a.Supply(people) <= a.sellers
  {}

  /** The sorted buyers and sellers an auction trades off. */
  lemma AuctionLists(a: Auction, people: People)
    requires a.buyers !! a.sellers
    ensures var bs, ss := SortedIds(a.Demand(people)), SortedIds(a.Supply(people));
            Apart(bs, ss) && Known(people, bs) && Known(people, ss)
  {
    hide Auction.Demand, Auction.Supply, Less, StrictlySorted, Known, Apart;
    TradersKnown(a, people);
    SortedApart(SortedIds(a.Demand(people)), SortedIds(a.Supply(people)));
    SortedKnown(people, a.Demand(people));
    SortedKnown(people, a.Supply(people));
  }

  /** The winners are the first of the sorted buyers and sellers. */
  lemma WinnersAre(a: Auction, people: People, p: string)
    ensures var bs, ss, n := SortedIds(a.Demand(people)), SortedIds(a.Supply(people)), a.Cleared(people);
            && n <= |bs| && (ss == [] || n <= |ss|)
            && (Wins(bs, n, p) <==> p in a.BuyWinners(people)) && (Wins(ss, n, p) <==> p in a.SellWinners(people))
  {
    hide Auction.Demand, Auction.Supply, Less, StrictlySorted;
    TradersKnown(a, people);
  }

  lemma AuctionAt(a: Auction, books: Books, p: string)
    requires a.buyers !! a.sellers
    ensures Moved(books, AfterAuction(a, books), p, p in a.BuyWinners(books.people), p in a.SellWinners(books.people), a.price)
  {
    hide Moved, Wins, Books.After, Auction.Demand, Auction.Supply, Auction.Cleared, Auction.BuyWinners, Auction.SellWinners,
      Apart, Known, Less, StrictlySorted;
    AuctionLists(a, books.people);
    WinnersAre(a, books.people, p);
    AfterAt(books, a.Cleared(books.people), SortedIds(a.Demand(books.people)), SortedIds(a.Supply(books.people)), a.price, p);
  }

  /** An auction looks at its own buyers and sellers only. */
  lemma SameAuction(a: Auction, people: People, people': People)
    requires people'.Keys == people.Keys
    requires forall p :: p in a.buyers + a.sellers && p in people ==> people'[p] == people[p]
    ensures a.Cleared(people') == a.Cleared(people)
    ensures a.BuyWinners(people') == a.BuyWinners(people) && a.SellWinners(people') == a.SellWinners(people)
  {
    assert a.Demand(people') == a.Demand(people);
    assert a.Supply(people') == a.Supply(people);
  }
}
