/** The two-phase crawl of one store and its merge (pipeline/src/scrapers/dana.ts), for pages that
    answer the same whenever they are asked. */
module DanaCrawl {
  import opened Outcomes
  import opened Counting
  import Pool
  import ScopeCover

  datatype Card = Card(id: nat, content: nat)

  /** `section` is set for the targets that annotate their products. */
  datatype Target = Target(path: nat, section: Option<nat>)

  datatype PageResult = Page(cards: seq<Card>, count: nat) | End | Failed

  /** What the store answers, page by page. */
  type Site = (Target, nat) -> PageResult

  datatype Job = Job(ti: nat, page: nat)

  /** The products in the order of their first sighting, and the sections each was seen in. */
  datatype Catalogue = Catalogue(order: seq<Card>, sections: map<nat, set<nat>>)

  // ----- the sequential crawl -----

  function Pages(site: Site, t: Target, last: nat): seq<PageResult> {
    if last < 2 then [] else Pages(site, t, last - 1) + [site(t, last)]
  }

  /** One target after the other: its first page, and then the pages it announces. */
  function Visit(site: Site, t: Target): seq<PageResult> { [site(t, 1)] + Tail(site, t) }

  function Tail(site: Site, t: Target): seq<PageResult> {
    if site(t, 1).Page? then Pages(site, t, site(t, 1).count) else []
  }

  function AddCard(c: Catalogue, card: Card, section: Option<nat>): Catalogue {
    var known := if card.id in c.sections then c else Catalogue(c.order + [card], c.sections[card.id := {}]);
    if section.None? then known else known.(sections := known.sections[card.id := known.sections[card.id] + {section.value}])
  }

  function AddCards(c: Catalogue, cards: seq<Card>, section: Option<nat>): Catalogue {
    if cards == [] then c else AddCard(AddCards(c, cards[..|cards| - 1], section), cards[|cards| - 1], section)
  }

  function AddPages(c: Catalogue, results: seq<PageResult>, section: Option<nat>): Catalogue {
    if results == [] then c else
      var before, r := AddPages(c, results[..|results| - 1], section), results[|results| - 1];
      if r.Page? then AddCards(before, r.cards, section) else before
  }

  function Errors(results: seq<PageResult>): nat {
    if results == [] then 0 else Errors(results[..|results| - 1]) + if results[|results| - 1].Failed? then 1 else 0
  }

  /** The catalogue and the error count of the sequential crawl. */
  function Crawl(site: Site, targets: seq<Target>): (Catalogue, nat) {
    if targets == [] then (Catalogue([], map[]), 0) else
      var (before, errors), t := Crawl(site, targets[..|targets| - 1]), targets[|targets| - 1];
      (AddPages(before, Visit(site, t), t.section), errors + Errors(Visit(site, t)))
  }

  // ----- what the catalogue lists -----

  function Shown(results: seq<PageResult>): seq<Card> {
    if results == [] then [] else
      Shown(results[..|results| - 1]) + if results[|results| - 1].Page? then results[|results| - 1].cards else []
  }

  /** All cards of the sequential crawl, target by target, page by page. */
  function AllCards(site: Site, targets: seq<Target>): seq<Card> {
    if targets == [] then [] else AllCards(site, targets[..|targets| - 1]) + Shown(Visit(site, targets[|targets| - 1]))
  }

  /** `order` lists every seen id once, with the card of its first sighting, in that order: `at`
      are the places of the first sightings. */
  ghost predicate Sightings(seen: seq<Card>, order: seq<Card>, at: seq<nat>) {
    && |at| == |order| && (forall k :: 0 <= k < |at| ==> at[k] < |seen| && order[k] == seen[at[k]])
    && (forall k, l :: 0 <= k < l < |at| ==> at[k] < at[l])
    && (forall k, i :: 0 <= k < |at| && 0 <= i < at[k] ==> seen[i].id != order[k].id)
    && (forall i :: 0 <= i < |seen| ==> Has(order, seen[i].id))
  }

  /** Besides, exactly the listed ids have sections. */
  ghost predicate Listed(seen: seq<Card>, c: Catalogue) {
    && (exists at :: Sightings(seen, c.order, at))
    && forall id :: id in c.sections <==> Has(c.order, id)
  }

  /** Which ids are listed. */
  predicate Has(order: seq<Card>, id: nat) { exists k :: 0 <= k < |order| && order[k].id == id }

  lemma HasNext(order: seq<Card>, card: Card, id: nat)
    ensures Has(order + [card], id) <==> Has(order, id) || id == card.id
  {
    var all := order + [card];
    if Has(order, id) {
      var k :| 0 <= k < |order| && order[k].id == id;
      assert all[k].id == id;
    }
    assert all[|order|] == card;
  }

  lemma ListedNext(seen: seq<Card>, c: Catalogue, card: Card, section: Option<nat>)
    requires Listed(seen, c)
    ensures Listed(seen + [card], AddCard(c, card, section))
  {
    hide Sightings, Has;
    var at :| Sightings(seen, c.order, at);
    if card.id in c.sections {
      SightedAgain(seen, c.order, at, card);
    } else {
      SightedFirst(seen, c.order, at, card);
      forall id ensures Has(c.order + [card], id) <==> Has(c.order, id) || id == card.id { HasNext(c.order, card, id); }
    }
  }

  lemma SightedAgain(seen: seq<Card>, order: seq<Card>, at: seq<nat>, card: Card)
    requires Sightings(seen, order, at) && Has(order, card.id)
    ensures Sightings(seen + [card], order, at)
  {
  }

  lemma SightedFirst(seen: seq<Card>, order: seq<Card>, at: seq<nat>, card: Card)
    requires Sightings(seen, order, at) && !Has(order, card.id)
    ensures Sightings(seen + [card], order + [card], at + [|seen|])
  {
    var all, listed, places := seen + [card], order + [card], at + [|seen|];
    forall i | 0 <= i < |all| ensures Has(listed, all[i].id) {
      HasNext(order, card, all[i].id);
      if i < |seen| { assert Has(order, seen[i].id); }
    }
    forall k, i | 0 <= k < |places| && 0 <= i < places[k] ensures all[i].id != listed[k].id {
      if k == |at| { assert Has(order, seen[i].id); }
    }
  }

  lemma {:induction false} CardsListed(seen: seq<Card>, c: Catalogue, cards: seq<Card>, section: Option<nat>)
    requires Listed(seen, c)
    ensures Listed(seen + cards, AddCards(c, cards, section))
  {
    hide Listed, AddCard;
    if cards == [] {
      assert seen + cards == seen;
    } else {
      var init, card := cards[..|cards| - 1], cards[|cards| - 1];
      CardsListed(seen, c, init, section);
      ListedNext(seen + init, AddCards(c, init, section), card, section);
      assert seen + cards == seen + init + [card];
    }
  }

  lemma {:induction false} PagesListed(seen: seq<Card>, c: Catalogue, results: seq<PageResult>, section: Option<nat>)
    requires Listed(seen, c)
    ensures Listed(seen + Shown(results), AddPages(c, results, section))
  {
    hide Listed, AddCards;
    if results == [] {
      assert seen + Shown(results) == seen;
    } else {
      var init, r := results[..|results| - 1], results[|results| - 1];
      PagesListed(seen, c, init, section);
      if r.Page? {
        CardsListed(seen + Shown(init), AddPages(c, init, section), r.cards, section);
        assert seen + Shown(results) == seen + Shown(init) + r.cards;
      } else {
        assert Shown(results) == Shown(init);
      }
    }
  }

  /** The products of the crawl are the seen ids, each once, with the card of its first sighting, in
      the order of those sightings. */
  lemma {:induction false} CrawlListed(site: Site, targets: seq<Target>)
    ensures Listed(AllCards(site, targets), Crawl(site, targets).0)
  {
    hide AddPages, Visit, Errors;
    if targets == [] {
      NothingSeen();
    } else {
      hide Listed;
      var init, t := targets[..|targets| - 1], targets[|targets| - 1];
      CrawlListed(site, init);
      PagesListed(AllCards(site, init), Crawl(site, init).0, Visit(site, t), t.section);
    }
  }

  lemma NothingSeen()
    ensures Listed([], Catalogue([], map[]))
  {
    assert Sightings([], [], []);
  }

  function Failures(results: seq<PageResult>): set<int> { set k | 0 <= k < |results| && results[k].Failed? }

  /** The error count is the number of pages that failed. */
  lemma {:induction false} ErrorsMean(results: seq<PageResult>)
    ensures Errors(results) == |Failures(results)|
  {
    if results == [] {
      assert Failures(results) == {};
    } else {
      var n := |results| - 1;
      ErrorsMean(results[..n]);
      assert Failures(results) == Failures(results[..n]) + if results[n].Failed? then {n} else {};
    }
  }

  // ----- the program -----

  /** The queue of the second phase: pages 2 to N of every target that answered. */
  function Queue(targets: seq<Target>, first: seq<PageResult>): seq<Job>
    requires |first| == |targets|
  {
    if targets == [] then [] else
      var n := |targets| - 1;
      Queue(targets[..n], first[..n]) + More(n, first[n])
  }

  function More(ti: nat, first: PageResult): seq<Job> { if first.Page? then JobsOf(ti, first.count) else [] }

  function JobsOf(ti: nat, last: nat): seq<Job> {
    if last < 2 then [] else JobsOf(ti, last - 1) + [Job(ti, last)]
  }

  /** What the queue brings back for one target. */
  function Share(jobs: seq<Job>, rest: seq<PageResult>, ti: nat): seq<PageResult>
    requires |rest| == |jobs|
  {
    if jobs == [] then [] else
      Share(jobs[..|jobs| - 1], rest[..|jobs| - 1], ti) + if jobs[|jobs| - 1].ti == ti then [rest[|jobs| - 1]] else []
  }

  function Answers(site: Site, targets: seq<Target>, jobs: seq<Job>): (rest: seq<PageResult>)
    requires forall j :: j in jobs ==> j.ti < |targets|
    ensures |rest| == |jobs|
  {
    seq(|jobs|, k requires 0 <= k < |jobs| => assert jobs[k] in jobs; site(targets[jobs[k].ti], jobs[k].page))
  }

  lemma {:induction false} ShareAppend(a: seq<Job>, b: seq<Job>, ra: seq<PageResult>, rb: seq<PageResult>, ti: nat)
    requires |a| == |ra| && |b| == |rb|
    ensures Share(a + b, ra + rb, ti) == Share(a, ra, ti) + Share(b, rb, ti)
  {
    if b == [] {
      assert a + b == a && ra + rb == ra;
    } else {
      var n := |b| - 1;
      assert (a + b)[..|a + b| - 1] == a + b[..n] && (ra + rb)[..|a + b| - 1] == ra + rb[..n];
      ShareAppend(a, b[..n], ra, rb[..n], ti);
    }
  }

  lemma {:induction false} ErrorsAppend(a: seq<PageResult>, b: seq<PageResult>)
    ensures Errors(a + b) == Errors(a) + Errors(b)
  {
    if b == [] {
      assert a + b == a;
    } else {
      assert (a + b)[..|a + b| - 1] == a + b[..|b| - 1];
      ErrorsAppend(a, b[..|b| - 1]);
    }
  }

  lemma {:induction false} JobsMean(n: nat, last: nat)
    ensures forall j :: j in JobsOf(n, last) ==> j.ti == n
  {
    if last >= 2 { JobsMean(n, last - 1); }
  }

  lemma AnswersNext(site: Site, targets: seq<Target>, jobs: seq<Job>, last: Job)
    requires last.ti < |targets| && forall j :: j in jobs ==> j.ti < |targets|
    ensures Answers(site, targets, jobs + [last]) == Answers(site, targets, jobs) + [site(targets[last.ti], last.page)]
  {
  }

  lemma ShareNext(jobs: seq<Job>, rest: seq<PageResult>, last: Job, r: PageResult, ti: nat)
    requires |rest| == |jobs|
    ensures Share(jobs + [last], rest + [r], ti) == Share(jobs, rest, ti) + if last.ti == ti then [r] else []
  {
    assert (jobs + [last])[..|jobs|] == jobs && (rest + [r])[..|jobs|] == rest;
  }

  lemma {:induction false} JobsAnswered(site: Site, targets: seq<Target>, n: nat, last: nat, ti: nat)
    requires n < |targets|
    requires forall j :: j in JobsOf(n, last) ==> j.ti < |targets|
    ensures var answers := Answers(site, targets, JobsOf(n, last));
      && answers == Pages(site, targets[n], last)
      && Share(JobsOf(n, last), answers, ti) == if ti == n then answers else []
  {
    hide Share, Answers;
    if last < 2 {
      NoJobs(site, targets, ti);
    } else {
      var init := JobsOf(n, last - 1);
      assert forall j :: j in init ==> j in JobsOf(n, last);
      JobsAnswered(site, targets, n, last - 1, ti);
      AnswersNext(site, targets, init, Job(n, last));
      ShareNext(init, Answers(site, targets, init), Job(n, last), site(targets[n], last), ti);
    }
  }

  lemma NoJobs(site: Site, targets: seq<Target>, ti: nat)
    ensures Answers(site, targets, []) == [] && Share([], [], ti) == []
  {
  }

  lemma {:induction false} QueueTargets(targets: seq<Target>, first: seq<PageResult>)
    requires |first| == |targets|
    ensures forall j :: j in Queue(targets, first) ==> j.ti < |targets|
  {
    if targets != [] {
      var n := |targets| - 1;
      QueueTargets(targets[..n], first[..n]);
      if first[n].Page? { JobsMean(n, first[n].count); }
    }
  }

  function Firsts(site: Site, targets: seq<Target>): (first: seq<PageResult>)
    ensures |first| == |targets|
  {
    seq(|targets|, i requires 0 <= i < |targets| => site(targets[i], 1))
  }

  /** The shared queue brings back, target by target, what the sequential crawl sees, and as many
      errors in all. */
  ghost predicate Agrees(site: Site, targets: seq<Target>, first: seq<PageResult>, jobs: seq<Job>, rest: seq<PageResult>)
    requires |first| == |targets| && |rest| == |jobs|
  {
    && (forall ti :: 0 <= ti < |targets| ==> [first[ti]] + Share(jobs, rest, ti) == Visit(site, targets[ti]))
    && (forall ti :: ti >= |targets| ==> Share(jobs, rest, ti) == [])
    && Errors(first) + Errors(rest) == Crawl(site, targets).1
  }

  lemma {:induction false} QueueAgrees(site: Site, targets: seq<Target>)
    ensures forall j :: j in Queue(targets, Firsts(site, targets)) ==> j.ti < |targets|
    ensures var jobs := Queue(targets, Firsts(site, targets));
      Agrees(site, targets, Firsts(site, targets), jobs, Answers(site, targets, jobs))
  {
    hide Queue, Agrees, Firsts, Share, Errors, Tail, Visit, JobsOf, More, Answers;
    QueueTargets(targets, Firsts(site, targets));
    if targets == [] {
      NoTargets(site);
    } else {
      var n := |targets| - 1;
      var init, t := targets[..n], targets[n];
      QueueAgrees(site, init);
      QueueSplits(site, init, t);
      var jobs, more := Queue(init, Firsts(site, init)), More(n, site(t, 1));
      assert targets == init + [t];
      forall j | j in more ensures j.ti < |targets| { assert j in Queue(targets, Firsts(site, targets)); }
      MoreAnswers(site, init, t, jobs, more);
      var a := Answers(site, init, jobs);
      AnswersLength(site, init, jobs);
      MoreMean(site, targets, n, n);
      forall ti: nat ensures Share(jobs + more, a + Tail(site, t), ti) == Share(jobs, a, ti) + if ti == n then Tail(site, t) else [] {
        MoreMean(site, targets, n, ti);
        ShareAppend(jobs, more, a, Tail(site, t), ti);
      }
      AgreesNext(site, init, t, jobs, a, more);
    }
  }

  lemma AnswersLength(site: Site, targets: seq<Target>, jobs: seq<Job>)
    requires forall j :: j in jobs ==> j.ti < |targets|
    ensures |Answers(site, targets, jobs)| == |jobs|
  {
  }

  lemma NoTargets(site: Site)
    ensures Firsts(site, []) == [] && Queue([], []) == [] && Answers(site, [], []) == [] &&
      Agrees(site, [], [], [], [])
  {
  }

  lemma QueueSplits(site: Site, init: seq<Target>, t: Target)
    ensures |Firsts(site, init + [t])| == |init| + 1 && |Firsts(site, init)| == |init|
    ensures Queue(init + [t], Firsts(site, init + [t])) == Queue(init, Firsts(site, init)) + More(|init|, site(t, 1))
  {
    assert (init + [t])[..|init|] == init && Firsts(site, init + [t])[..|init|] == Firsts(site, init);
  }

  lemma MoreMean(site: Site, targets: seq<Target>, n: nat, ti: nat)
    requires n < |targets| && forall j :: j in More(n, site(targets[n], 1)) ==> j.ti < |targets|
    ensures var more := More(n, site(targets[n], 1));
      Answers(site, targets, more) == Tail(site, targets[n]) && |more| == |Tail(site, targets[n])| &&
      Share(more, Tail(site, targets[n]), ti) == if ti == n then Tail(site, targets[n]) else []
  {
    if site(targets[n], 1).Page? { JobsAnswered(site, targets, n, site(targets[n], 1).count, ti); }
  }

  lemma MoreAnswers(site: Site, init: seq<Target>, t: Target, jobs: seq<Job>, more: seq<Job>)
    requires (forall j :: j in jobs ==> j.ti < |init|) && forall j :: j in more ==> j.ti < |init + [t]|
    ensures forall j :: j in jobs + more ==> j.ti < |init + [t]|
    ensures Answers(site, init + [t], jobs + more) == Answers(site, init, jobs) + Answers(site, init + [t], more)
  {
  }

  lemma AgreesNext(site: Site, init: seq<Target>, t: Target, jobs: seq<Job>, a: seq<PageResult>, more: seq<Job>)
    requires |jobs| == |a| && |more| == |Tail(site, t)| && Agrees(site, init, Firsts(site, init), jobs, a)
    requires forall ti: nat ::
      Share(jobs + more, a + Tail(site, t), ti) == Share(jobs, a, ti) + if ti == |init| then Tail(site, t)
      else []
    ensures Agrees(site, init + [t], Firsts(site, init + [t]), jobs + more, a + Tail(site, t))
  {
    hide Share, Tail;
    var targets, first := init + [t], Firsts(site, init + [t]);
    assert first == Firsts(site, init) + [site(t, 1)] && targets[..|init|] == init;
    forall ti | 0 <= ti < |targets| ensures [first[ti]] + Share(jobs + more, a + Tail(site, t), ti) == Visit(site, targets[ti]) {
      if ti < |init| {
        assert Share(jobs, a, ti) + [] == Share(jobs, a, ti);
      } else {
        assert Share(jobs, a, ti) == [];
      }
    }
    forall ti: nat | ti >= |targets| ensures Share(jobs + more, a + Tail(site, t), ti) == [] { assert Share(jobs, a, ti) == []; }
    ErrorsAppend(Firsts(site, init), [site(t, 1)]);
    ErrorsAppend([site(t, 1)], Tail(site, t));
    ErrorsAppend(a, Tail(site, t));
  }

  method QueueUp(targets: seq<Target>, first: seq<PageResult>) returns (jobs: seq<Job>, errors: nat)
    requires |first| == |targets|
    ensures jobs == Queue(targets, first) && errors == Errors(first)
  {
    jobs, errors := [], 0;
    for ti := 0 to |targets|
      invariant jobs == Queue(targets[..ti], first[..ti]) && errors == Errors(first[..ti])
    {
      var r := first[ti];
      assert targets[..ti + 1][..ti] == targets[..ti] && first[..ti + 1][..ti] == first[..ti];
      if r.Failed? { errors := errors + 1; }
      if r.Page? {
        ghost var before := jobs;
        assert JobsOf(ti, if r.count < 1 then r.count else 1) == [];
        var page := 2;
        while page <= r.count
          invariant 2 <= page && (page <= r.count + 1 || page == 2) && jobs == before + JobsOf(ti, page - 1)
        {
          jobs := jobs + [Job(ti, page)];
          page := page + 1;
        }
      }
    }
    assert targets[..|targets|] == targets && first[..|first|] == first;
  }

  /** The results of the queue handed back to their targets. */
  method HandBack(targets: seq<Target>, first: seq<PageResult>, jobs: seq<Job>, rest: seq<PageResult>)
    returns (perTarget: seq<seq<PageResult>>)
    requires |first| == |targets| && |rest| == |jobs| && forall j :: j in jobs ==> j.ti < |targets|
    ensures |perTarget| == |targets| && forall ti :: 0 <= ti < |targets| ==>
      perTarget[ti] == [first[ti]] + Share(jobs, rest, ti)
  {
    perTarget := seq(|targets|, ti requires 0 <= ti < |targets| => [first[ti]]);
    for k := 0 to |jobs|
      invariant |perTarget| == |targets| && forall ti :: 0 <= ti < |targets| ==>
        perTarget[ti] == [first[ti]] + Share(jobs[..k], rest[..k], ti)
    {
      assert jobs[k] in jobs && jobs[..k + 1][..k] == jobs[..k] && rest[..k + 1][..k] == rest[..k];
      perTarget := perTarget[jobs[k].ti := perTarget[jobs[k].ti] + [rest[k]]];
    }
    assert jobs[..|jobs|] == jobs && rest[..|rest|] == rest;
  }

  /** The merge: target by target, page by page, card by card. */
  method Merge(site: Site, targets: seq<Target>, perTarget: seq<seq<PageResult>>) returns (c: Catalogue)
    requires |perTarget| == |targets| && forall ti :: 0 <= ti < |targets| ==>
      perTarget[ti] == Visit(site, targets[ti])
    ensures c == Crawl(site, targets).0
  {
    hide Visit;
    c := Catalogue([], map[]);
    for ti := 0 to |targets|
      invariant c == Crawl(site, targets[..ti]).0
    {
      assert targets[..ti + 1][..ti] == targets[..ti];
      c := MergeTarget(c, targets[ti], perTarget[ti]);
    }
    assert targets[..|targets|] == targets;
  }

  method MergeTarget(before: Catalogue, t: Target, results: seq<PageResult>) returns (c: Catalogue)
    ensures c == AddPages(before, results, t.section)
  {
    c := before;
    for k := 0 to |results|
      invariant c == AddPages(before, results[..k], t.section)
    {
      assert results[..k + 1][..k] == results[..k];
      if results[k].Page? {
        var cards, start := results[k].cards, c;
        for i := 0 to |cards|
          invariant c == AddCards(start, cards[..i], t.section)
        {
          assert cards[..i + 1][..i] == cards[..i];
          if cards[i].id !in c.sections { c := Catalogue(c.order + [cards[i]], c.sections[cards[i].id := {}]); }
          if t.section.Some? { c := c.(sections := c.sections[cards[i].id := c.sections[cards[i].id] + {t.section.value}]); }
        }
        assert cards[..|cards|] == cards;
      }
    }
    assert results[..|results|] == results;
  }

  method FetchFirst(site: Site, targets: seq<Target>, concurrency: int) returns (first: seq<PageResult>)
    ensures first == Firsts(site, targets)
  {
    var calls, peak;
    first, calls, peak := Pool.MapPool(targets, concurrency, (t: Target, i: nat) => site(t, 1));
  }

  method FetchRest(site: Site, targets: seq<Target>, jobs: seq<Job>, concurrency: int)
    returns (rest: seq<PageResult>, errors: nat)
    requires forall j :: j in jobs ==> j.ti < |targets|
    ensures rest == Answers(site, targets, jobs) && |rest| == |jobs| && errors == Errors(rest)
  {
    var calls, peak;
    rest, calls, peak := Pool.MapPool(jobs, concurrency, (j: Job, k: nat) => if j.ti < |targets| then site(targets[j.ti], j.page) else End);
    forall k | 0 <= k < |jobs| ensures rest[k] == Answers(site, targets, jobs)[k] { assert jobs[k] in jobs; }
    errors := 0;
    for k := 0 to |rest|
      invariant errors == Errors(rest[..k])
    {
      assert rest[..k + 1][..k] == rest[..k];
      if rest[k].Failed? { errors := errors + 1; }
    }
    assert rest[..|rest|] == rest;
  }

  /** scrapeDana: whatever the concurrency and the order in which the answers arrive, products,
      section annotations and error count are those of the sequential crawl. */
  method ScrapeDana(site: Site, targets: seq<Target>, concurrency: int) returns (c: Catalogue, errors: nat)
    ensures c == Crawl(site, targets).0 && errors == Crawl(site, targets).1
  {
    hide Firsts, Answers, Queue, Errors, Crawl, Share, Visit;
    var first := FetchFirst(site, targets, concurrency);
    var jobs, failed := QueueUp(targets, first);
    QueueAgrees(site, targets);
    var rest, missed := FetchRest(site, targets, jobs, concurrency);
    var perTarget := HandBack(targets, first, jobs, rest);
    c := Merge(site, targets, perTarget);
    errors := failed + missed;
  }

  // ----- what the annotation means -----

  predicate OnPages(results: seq<PageResult>, id: nat) {
    exists k, i :: 0 <= k < |results| && results[k].Page? && 0 <= i < |results[k].cards| && results[k].cards[i].id == id
  }

  predicate OnCards(cards: seq<Card>, id: nat) { exists i :: 0 <= i < |cards| && cards[i].id == id }

  lemma {:induction false} CardsMean(c: Catalogue, cards: seq<Card>, section: Option<nat>, id: nat)
    ensures var d := AddCards(c, cards, section);
      && (id in d.sections <==> id in c.sections || OnCards(cards, id))
      && (id in d.sections ==>
        d.sections[id] == (if id in c.sections then c.sections[id]
        else {}) + (if OnCards(cards, id) && section.Some? then {section.value} else {}))
  {
    if cards != [] {
      var init, last := cards[..|cards| - 1], cards[|cards| - 1];
      CardsMean(c, init, section, id);
      if OnCards(init, id) {
        var i :| 0 <= i < |init| && init[i].id == id;
        assert cards[i].id == id;
      }
      if last.id == id { assert cards[|cards| - 1].id == id; }
      if OnCards(cards, id) && last.id != id {
        var i :| 0 <= i < |cards| && cards[i].id == id;
        assert init[i].id == id;
      }
    }
  }

  lemma OnPagesNext(init: seq<PageResult>, last: PageResult, id: nat)
    ensures OnPages(init + [last], id) <==> OnPages(init, id) || (last.Page? && OnCards(last.cards, id))
  {
    var all := init + [last];
    if OnPages(init, id) {
      var k, i :| 0 <= k < |init| && init[k].Page? && 0 <= i < |init[k].cards| && init[k].cards[i].id == id;
      assert all[k] == init[k];
    }
    if last.Page? && OnCards(last.cards, id) {
      var i :| 0 <= i < |last.cards| && last.cards[i].id == id;
      assert all[|init|].cards[i].id == id;
    }
    if OnPages(all, id) {
      var k, i :| 0 <= k < |all| && all[k].Page? && 0 <= i < |all[k].cards| && all[k].cards[i].id == id;
      assert k < |init| ==> init[k] == all[k];
      assert k == |init| ==> last.cards[i].id == id;
    }
  }

  lemma {:induction false} PagesMean(c: Catalogue, results: seq<PageResult>, section: Option<nat>, id: nat)
    ensures var d := AddPages(c, results, section);
      && (id in d.sections <==> id in c.sections || OnPages(results, id))
      && (id in d.sections ==>
        d.sections[id] == (if id in c.sections then c.sections[id]
        else {}) + (if OnPages(results, id) && section.Some? then {section.value} else {}))
  {
    if results != [] {
      var init, last := results[..|results| - 1], results[|results| - 1];
      PagesMean(c, init, section, id);
      assert results == init + [last];
      OnPagesNext(init, last, id);
      hide OnPages, OnCards, AddCards;
      if last.Page? { CardsMean(AddPages(c, init, section), last.cards, section, id); }
    }
  }

  /** The first page of a target, and those that it announces. */
  predicate Reached(site: Site, t: Target, page: nat) { page == 1 || (site(t, 1).Page? && 2 <= page <= site(t, 1).count) }

  /** A product is on a page of the target. */
  ghost predicate Lists(site: Site, t: Target, id: nat) {
    exists page: nat, i :: Reached(site, t, page) && site(t, page).Page? && 0 <= i < |site(t, page).cards| && site(t, page).cards[i].id == id
  }

  ghost predicate Seen(site: Site, targets: seq<Target>, id: nat) {
    exists ti :: 0 <= ti < |targets| && Lists(site, targets[ti], id)
  }

  ghost predicate SeenIn(site: Site, targets: seq<Target>, id: nat, s: nat) {
    exists ti :: 0 <= ti < |targets| && targets[ti].section == Some(s) && Lists(site, targets[ti], id)
  }

  lemma SeenNext(site: Site, init: seq<Target>, t: Target, id: nat, s: nat)
    ensures Seen(site, init + [t], id) <==> Seen(site, init, id) || Lists(site, t, id)
    ensures SeenIn(site, init + [t], id, s) <==>
      SeenIn(site, init, id, s) || (Lists(site, t, id) && t.section == Some(s))
    ensures SeenIn(site, init, id, s) ==> Seen(site, init, id)
  {
    hide Lists;
    var all := init + [t];
    assert all[|init|] == t;
    if Seen(site, init, id) {
      var ti :| 0 <= ti < |init| && Lists(site, init[ti], id);
      assert all[ti] == init[ti];
    }
    if SeenIn(site, init, id, s) {
      var ti :| 0 <= ti < |init| && init[ti].section == Some(s) && Lists(site, init[ti], id);
      assert all[ti] == init[ti];
    }
  }

  /** A product is annotated with exactly the sections of the targets that list it. */
  lemma {:induction false} Annotated(site: Site, targets: seq<Target>, id: nat, s: nat)
    ensures var c := Crawl(site, targets).0;
      && (id in c.sections <==> Seen(site, targets, id))
      && (id in c.sections ==> (s in c.sections[id] <==> SeenIn(site, targets, id, s)))
  {
    hide AddPages, OnPages, Visit, Lists;
    if targets != [] {
      var n := |targets| - 1;
      var init, t := targets[..n], targets[n];
      Annotated(site, init, id, s);
      PagesMean(Crawl(site, init).0, Visit(site, t), t.section, id);
      ListsMeans(site, t, id);
      assert targets == init + [t];
      SeenNext(site, init, t, id, s);
      hide Seen, SeenIn;
    }
  }

  lemma {:induction false} PagesAre(site: Site, t: Target, last: nat)
    ensures |Pages(site, t, last)| == if last < 2 then 0 else last - 1
    ensures forall k :: 0 <= k < |Pages(site, t, last)| ==> Pages(site, t, last)[k] == site(t, k + 2)
  {
    if last >= 2 { PagesAre(site, t, last - 1); }
  }

  lemma VisitReaches(site: Site, t: Target, page: nat)
    ensures Reached(site, t, page) <==> 1 <= page <= |Visit(site, t)|
    ensures Reached(site, t, page) ==> Visit(site, t)[page - 1] == site(t, page)
  {
    if site(t, 1).Page? { PagesAre(site, t, site(t, 1).count); }
  }

  lemma ListsMeans(site: Site, t: Target, id: nat)
    ensures Lists(site, t, id) <==> OnPages(Visit(site, t), id)
  {
    hide Visit, Reached;
    var results := Visit(site, t);
    if Lists(site, t, id) {
      var page: nat, i :| Reached(site, t, page) && site(t, page).Page? && 0 <= i < |site(t, page).cards| && site(t, page).cards[i].id == id;
      VisitReaches(site, t, page);
      assert results[page - 1].cards[i].id == id;
    }
    if OnPages(results, id) {
      var k, i :| 0 <= k < |results| && results[k].Page? && 0 <= i < |results[k].cards| && results[k].cards[i].id == id;
      VisitReaches(site, t, k + 1);
      assert Reached(site, t, k + 1) && site(t, k + 1).cards[i].id == id;
    }
  }

  /** The written list of sections: sorted, and each section once. */
  method Listing(sections: set<nat>) returns (list: seq<nat>)
    ensures forall x :: x in list <==> x in sections
    ensures forall x :: Count(list, x) <= 1
  {
    list := [];
    var left := sections;
    while left != {}
      invariant left <= sections && forall x :: x in list <==> x in sections && x !in left
      invariant forall x :: Count(list, x) <= 1
    {
      var x :| x in left;
      CountPositive(list, x);
      assert (list + [x])[..|list|] == list;
      list, left := list + [x], left - {x};
    }
    SortedOnce(list);
    list := ScopeCover.Sorted(list);
  }

  /** Sorting keeps what is listed and how often. */
  lemma SortedOnce(list: seq<nat>)
    ensures forall x ::
      (x in ScopeCover.Sorted(list) <==> x in list) && Count(ScopeCover.Sorted(list), x) == Count(list, x)
  {
    forall x ensures (x in ScopeCover.Sorted(list) <==> x in list) && Count(ScopeCover.Sorted(list), x) == Count(list, x) {
      Multiplicities(list, x);
      Multiplicities(ScopeCover.Sorted(list), x);
      assert x in list <==> x in multiset(list);
      assert x in ScopeCover.Sorted(list) <==> x in multiset(ScopeCover.Sorted(list));
    }
  }

  lemma {:induction false} Multiplicities(list: seq<nat>, x: nat)
    ensures Count(list, x) == multiset(list)[x]
  {
    if list != [] {
      Multiplicities(list[..|list| - 1], x);
      assert list == list[..|list| - 1] + [list[|list| - 1]];
    }
  }
}
