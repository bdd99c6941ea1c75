/** The voice dialogue: what a product query may look like by the time it is issued
    (backend-go/internal/voice/service.go, backend-go/internal/voice/state.go,
    backend-go/internal/voice/live_validation.go). */
module Voice {
  import opened Outcomes

  type Category = nat
  type Key = nat

  const MILK: Category := 0
  const VOLUME: Key := 0
  const FAT: Key := 1

  datatype Intent = Cheapest | Search | OtherIntent

  /** A decoded JSON value; anything that is not a primitive is refused wherever it is read. */
  datatype Value = Null | Text(n: nat) | Bool(b: bool) | Number(r: real) | Compound

  datatype Definition = Definition(key: Key, boolean: bool, options: seq<Value>)
  datatype Schema = Schema(category: Category, filters: seq<Definition>)

  datatype Parsed = Parsed(intent: Option<Intent>, category: Option<Category>, filters: map<Key, Value>)

  datatype Input = Input(categories: set<Category>, schemas: seq<Schema>, current: Option<Category>)

  datatype Query = Query(intent: Intent, category: Category, limit: nat, filters: map<Key, Value>, visible: set<Category>, live: Schema)

  function SchemaFor(schemas: seq<Schema>, category: Option<Category>): Option<Schema> {
    if category.None? || schemas == [] then None
    else if schemas[0].category == category.value then Some(schemas[0])
    else SchemaFor(schemas[1..], category)
  }

  function DefinitionOf(ds: seq<Definition>, k: Key): Option<Definition> {
    if ds == [] then None else if ds[0].key == k then Some(ds[0]) else DefinitionOf(ds[1..], k)
  }

  function Allowed(schemas: seq<Schema>, category: Option<Category>, k: Key): Option<Definition> {
    var s := SchemaFor(schemas, category);
    if s.None? then None else DefinitionOf(s.value.filters, k)
  }

  predicate ValidFilter(v: Value, d: Option<Definition>) {
    && !v.Compound? && d.Some?
    && (v.Null? || if d.value.boolean && !v.Bool? then false
      else (d.value.boolean && d.value.options == []) || v in d.value.options)
  }

  function Selected(p: Parsed, input: Input): Option<Category> { if p.category.Some? then p.category else input.current }

  predicate Valid(p: Parsed, input: Input) {
    && (p.intent.Some? ==> !p.intent.value.OtherIntent?)
    && (p.category.Some? ==> p.category.value in input.categories)
    && forall k :: k in p.filters ==> ValidFilter(p.filters[k], Allowed(input.schemas, Selected(p, input), k))
  }

  /** A milk field that is a declared number but not on offer now. */
  predicate Unavailable(filters: map<Key, Value>, configured: seq<Schema>, live: seq<Schema>, category: Option<Category>, k: Key) {
    && k in filters && filters[k].Number?
    && ValidFilter(filters[k], Allowed(configured, category, k)) &&
      !ValidFilter(filters[k], Allowed(live, category, k))
  }

  function Clarified(p: Parsed, configured: seq<Schema>, live: Input): Parsed {
    if Selected(p, live) != Some(MILK) then p else
      p.(filters := map k | k in p.filters && !(k in {VOLUME, FAT} && Unavailable(p.filters, configured, live.schemas, Selected(p, live), k)) :: p.filters[k])
  }

  /** clarifyUnavailableMilk. */
  method ClarifyUnavailableMilk(p: Parsed, configured: seq<Schema>, live: Input) returns (r: Parsed)
    ensures r == Clarified(p, configured, live)
  {
    var category := Selected(p, live);
    if category != Some(MILK) { return p; }
    hide Unavailable;
    var filters, keys := p.filters, [VOLUME, FAT];
    for i := 0 to 2
      invariant filters == map k | k in p.filters &&
        !(k in keys[..i] && Unavailable(p.filters, configured, live.schemas, category, k)) :: p.filters[k]
    {
      assert keys[..i + 1] == keys[..i] + [keys[i]] && keys[i] !in keys[..i];
      StillUnavailable(p.filters, filters, configured, live.schemas, category, keys[i]);
      if Unavailable(filters, configured, live.schemas, category, keys[i]) { filters := filters - {keys[i]}; }
    }
    assert keys[..2] == [VOLUME, FAT];
    r := p.(filters := filters);
  }

  lemma StillUnavailable(a: map<Key, Value>, b: map<Key, Value>, configured: seq<Schema>, live: seq<Schema>,
    category: Option<Category>, k: Key)
    requires (k in a <==> k in b) && (k in a ==> a[k] == b[k])
    ensures Unavailable(a, configured, live, category, k) == Unavailable(b, configured, live, category, k)
  {
  }

  function Merged(previous: Parsed, update: Parsed, schemas: seq<Schema>): Parsed {
    var category := if update.category.Some? then update.category else previous.category;
    var same := category.Some? && category == previous.category;
    Parsed(if previous.intent.Some? then previous.intent else update.intent, category,
           map k | k in previous.filters.Keys + update.filters.Keys && Allowed(schemas, category, k).Some? &&
             (Said(update, k) || (same && k in previous.filters)) ::
             if Said(update, k) then update.filters[k] else previous.filters[k])
  }

  predicate Said(update: Parsed, k: Key) { k in update.filters && !update.filters[k].Null? }

  /** Merge: the two loops over the filters, in any order. */
  method Merge(previous: Parsed, update: Parsed, schemas: seq<Schema>) returns (r: Parsed)
    ensures r == Merged(previous, update, schemas)
  {
    hide Allowed;
    var category := if update.category.Some? then update.category else previous.category;
    var same := category.Some? && previous.category.Some? && category.value == previous.category.value;
    var kept := map[];
    if same { kept := Keep(previous.filters, schemas, category); }
    var out := Overlay(kept, update.filters, schemas, category);
    r := Parsed(if previous.intent.Some? then previous.intent else update.intent, category, out);
    assert r.filters == Merged(previous, update, schemas).filters;
  }

  method Keep(filters: map<Key, Value>, schemas: seq<Schema>, category: Option<Category>)
    returns (out: map<Key, Value>)
    ensures out == map k | k in filters && Allowed(schemas, category, k).Some? :: filters[k]
  {
    hide Allowed;
    out := map[];
    var left := filters.Keys;
    while left != {}
      invariant left <= filters.Keys
      invariant out == map k | k in filters && k !in left && Allowed(schemas, category, k).Some? :: filters[k]
    {
      var k :| k in left;
      left := left - {k};
      if Allowed(schemas, category, k).Some? { out := out[k := filters[k]]; }
    }
  }

  method Overlay(kept: map<Key, Value>, filters: map<Key, Value>, schemas: seq<Schema>,
    category: Option<Category>) returns (out: map<Key, Value>)
    ensures forall k :: k in out <==>
      k in kept || (k in filters && !filters[k].Null? && Allowed(schemas, category, k).Some?)
    ensures forall k :: k in out ==>
      out[k] == if k in filters && !filters[k].Null? && Allowed(schemas, category, k).Some? then filters[k]
      else kept[k]
  {
    hide Allowed;
    out := kept;
    var left := filters.Keys;
    while left != {}
      invariant left <= filters.Keys
      invariant forall k :: k in out <==>
        k in kept || (k in filters && k !in left && !filters[k].Null? && Allowed(schemas, category, k).Some?)
      invariant forall k :: k in out ==>
        out[k] == if k in filters && k !in left && !filters[k].Null? &&
        Allowed(schemas, category, k).Some? then filters[k] else kept[k]
    {
      var k :| k in left;
      left := left - {k};
      if Allowed(schemas, category, k).Some? && !filters[k].Null? { out := out[k := filters[k]]; }
    }
  }

  datatype Field = IntentField | CategoryField | VolumeField | FatField

  /** Missing: what has to be asked for before a query can be made. */
  function Missing(p: Parsed): seq<Field> {
    (if p.intent.None? then [IntentField] else []) +
    (if p.category.None? then [CategoryField] else []) +
    (if p.category == Some(MILK) && !Said(p, VOLUME) then [VolumeField] else []) +
    (if p.category == Some(MILK) && !Said(p, FAT) then [FatField] else [])
  }

  /** QuestionFields: what the question asked now is about. */
  function QuestionFields(missing: seq<Field>): seq<Field> {
    if IntentField in missing then [IntentField]
    else if CategoryField in missing then [CategoryField]
    else (if VolumeField in missing then [VolumeField] else []) + (if FatField in missing then [FatField] else [])
  }

  predicate Complete(p: Parsed) {
    p.intent.Some? && p.category.Some? && (p.category == Some(MILK) ==> Said(p, VOLUME) && Said(p, FAT))
  }

  /** A question is asked exactly while something is missing, and only about that. */
  lemma QuestionMeans(p: Parsed)
    ensures Complete(p) <==> Missing(p) == []
    ensures Complete(p) <==> QuestionFields(Missing(p)) == []
    ensures forall f :: f in QuestionFields(Missing(p)) ==> f in Missing(p)
  {
  }

  /** The outside world during one request: each part may fail. */
  datatype World = World(vocabulary: Option<Input>, parse: Option<Parsed>, live: Option<Schema>, loads: bool, stores: bool, products: bool, token: nat)

  datatype Reply = Failure | NotFound | Clarification(session: nat, missing: seq<Field>) | Result

  /** The sessions, and the queries made so far. */
  datatype Desk = Desk(sessions: map<nat, Parsed>, queries: seq<Query>)

  /** What liveInput lets through: valid against the vocabulary, and then against the schema of the
      selected category as it is now. */
  function Ready(w: World, input: Input, p: Parsed): (r: Option<(Input, Parsed)>)
    ensures r.Some? ==> Valid(r.value.1, r.value.0) && r.value.0.(schemas := input.schemas) == input
    ensures r.Some? ==>
      r.value.1.category == p.category && r.value.1.intent == p.intent &&
      r.value.1.filters.Keys <= p.filters.Keys
    ensures r.Some? && Selected(p, input).Some? ==> w.live.Some? && r.value.0.schemas == [w.live.value]
  {
    if !Valid(p, input) then None
    else if Selected(p, input).None? then Some((input, p))
    else if w.live.None? then None
    else
      var live := input.(schemas := [w.live.value]);
      var q := Clarified(p, input.schemas, live);
      if Valid(q, live) then Some((live, q)) else None
  }

  /** The milk fields that were named but are not on offer. */
  function Forgotten(original: Parsed, update: Parsed): set<Key> {
    set k | k in {VOLUME, FAT} && k in original.filters && k !in update.filters
  }

  /** The state of a session after an answer. */
  function Answered(previous: Parsed, original: Parsed, update: Parsed, configured: seq<Schema>, live: Input): Parsed {
    var merged := Merged(previous, update, live.schemas);
    Clarified(if merged.category == Some(MILK) then merged.(filters := merged.filters - Forgotten(original, update)) else merged, configured, live)
  }

  function QueryOf(state: Parsed, live: Input, schema: Schema): Query
    requires Complete(state)
  {
    Query(state.intent.value, state.category.value, if state.intent.value.Cheapest? then 1 else 3,
          map k | k in state.filters && !state.filters[k].Null? :: state.filters[k], live.categories, schema)
  }

  /** advance: asks again while something is missing, and otherwise queries. */
  function Advanced(w: World, desk: Desk, state: Parsed, live: Input, id: Option<nat>): (Desk, Reply)
    requires Complete(state) ==> w.live.Some?
  {
    if !Complete(state) then
      var session := if id.Some? then id.value else w.token;
      if w.stores then (desk.(sessions := desk.sessions[session := state]), Clarification(session, Missing(state))) else (desk, Failure)
    else
      var asked := desk.(queries := desk.queries + [QueryOf(state, live, w.live.value)]);
      if !w.products || (id.Some? && !w.stores) then (asked, Failure)
      else if id.None? then (asked, Result)
      else (asked.(sessions := asked.sessions - {id.value}), Result)
  }

  function Started(w: World, desk: Desk): (Desk, Reply) {
    if w.vocabulary.None? || w.parse.None? then (desk, Failure) else
      var ready := Ready(w, w.vocabulary.value.(current := None), w.parse.value);
      if ready.None? then (desk, Failure) else Advanced(w, desk, ready.value.1, ready.value.0, None)
  }

  function Continued(w: World, desk: Desk, id: nat): (Desk, Reply) {
    if !w.loads then (desk, Failure)
    else if id !in desk.sessions then (desk, NotFound)
    else if w.vocabulary.None? || w.parse.None? then (desk, Failure)
    else
      var input := w.vocabulary.value.(current := desk.sessions[id].category);
      var ready := Ready(w, input, w.parse.value);
      if ready.None? then (desk, Failure) else
        var state := Answered(desk.sessions[id], w.parse.value, ready.value.1, input.schemas, ready.value.0);
        if Valid(state, ready.value.0) then Advanced(w, desk, state, ready.value.0, Some(id)) else (desk, Failure)
  }

  class Service {
    var sessions: map<nat, Parsed>
    var queries: seq<Query>

    constructor ()
      ensures Now() == Desk(map[], [])
    {
      sessions, queries := map[], [];
    }

    function Now(): Desk
      reads this
    {
      Desk(sessions, queries)
    }

    method LiveInput(w: World, input: Input, p: Parsed) returns (r: Option<(Input, Parsed)>)
      ensures r == Ready(w, input, p)
    {
      if !Valid(p, input) { return None; }
      if Selected(p, input).None? { return Some((input, p)); }
      if w.live.None? { return None; }
      var live := input.(schemas := [w.live.value]);
      var q := ClarifyUnavailableMilk(p, input.schemas, live);
      if !Valid(q, live) { return None; }
      r := Some((live, q));
    }

    /** result: the query itself. */
    method Issue(w: World, state: Parsed, live: Input) returns (r: Reply)
      requires Complete(state) && w.live.Some?
      modifies this`queries
      ensures queries == old(queries) + [QueryOf(state, live, w.live.value)]
      ensures r == if w.products then Result else Failure
    {
      var limit := if state.intent.value.Cheapest? then 1 else 3;
      var filters := map k | k in state.filters && !state.filters[k].Null? :: state.filters[k];
      queries := queries + [Query(state.intent.value, state.category.value, limit, filters, live.categories, w.live.value)];
      r := if w.products then Result else Failure;
    }

    method Advance(w: World, state: Parsed, live: Input, id: Option<nat>) returns (r: Reply)
      requires Complete(state) ==> w.live.Some?
      modifies this
      ensures (Now(), r) == Advanced(w, old(Now()), state, live, id)
    {
      var missing := Missing(state);
      QuestionMeans(state);
      if |missing| > 0 {
        if !w.stores { return Failure; }
        var session := if id.Some? then id.value else w.token;
        sessions := sessions[session := state];
        return Clarification(session, missing);
      }
      r := Issue(w, state, live);
      if r == Failure { return; }
      if id.Some? {
        if !w.stores { return Failure; }
        sessions := sessions - {id.value};
      }
    }

    method Start(w: World) returns (r: Reply)
      modifies this
      ensures (Now(), r) == Started(w, old(Now()))
    {
      hide Valid, Missing;
      if w.vocabulary.None? || w.parse.None? { return Failure; }
      var ready := LiveInput(w, w.vocabulary.value.(current := None), w.parse.value);
      if ready.None? { return Failure; }
      r := Advance(w, ready.value.1, ready.value.0, None);
    }

    method Continue(w: World, id: nat) returns (r: Reply)
      modifies this
      ensures (Now(), r) == Continued(w, old(Now()), id)
    {
      hide Valid, Missing;
      if !w.loads { return Failure; }
      if id !in sessions { return NotFound; }
      if w.vocabulary.None? || w.parse.None? { return Failure; }
      var previous := sessions[id];
      var input := w.vocabulary.value.(current := previous.category);
      var configured, original := input.schemas, w.parse.value;
      var ready := LiveInput(w, input, original);
      if ready.None? { return Failure; }
      var live, update := ready.value.0, ready.value.1;
      var merged := Merge(previous, update, live.schemas);
      if merged.category == Some(MILK) {
        merged := merged.(filters := merged.filters - (set k | k in {VOLUME, FAT} && k in original.filters && k !in update.filters));
      }
      merged := ClarifyUnavailableMilk(merged, configured, live);
      if !Valid(merged, live) { return Failure; }
      r := Advance(w, merged, live, Some(id));
    }
  }

  // ----- what the dialogue keeps -----

  /** A query that may be issued. */
  ghost predicate Proper(q: Query) {
    && !q.intent.OtherIntent? && q.limit == (if q.intent.Cheapest? then 1 else 3)
    && q.category in q.visible
    && (q.category == MILK ==> VOLUME in q.filters && FAT in q.filters)
    && forall k :: k in q.filters ==> q.live.category == q.category && Offered(q.live.filters, k, q.filters[k])
  }

  /** A value that the first definition of a filter offers: one of its options or, for a filter
      that is a mere yes or no, either. */
  ghost predicate Offered(ds: seq<Definition>, k: Key, v: Value) {
    exists i :: 0 <= i < |ds| && ds[i].key == k && (forall j :: 0 <= j < i ==> ds[j].key != k) && Offers(ds[i], v)
  }

  predicate Offers(d: Definition, v: Value) {
    && !v.Null? && !v.Compound? && (d.boolean ==> v.Bool?)
    && (v in d.options || (d.boolean && d.options == []))
  }

  lemma {:induction false} DefinitionFirst(ds: seq<Definition>, k: Key)
    ensures DefinitionOf(ds, k).None? ==> forall i :: 0 <= i < |ds| ==> ds[i].key != k
    ensures DefinitionOf(ds, k).Some? ==>
      exists i :: 0 <= i < |ds| && ds[i].key == k && (forall j :: 0 <= j < i ==> ds[j].key != k) && DefinitionOf(ds, k) == Some(ds[i])
  {
    if ds != [] && ds[0].key != k {
      DefinitionFirst(ds[1..], k);
      if DefinitionOf(ds, k).Some? {
        var i :| 0 <= i < |ds[1..]| && ds[1..][i].key == k && (forall j :: 0 <= j < i ==> ds[1..][j].key != k) &&
          DefinitionOf(ds, k) == Some(ds[1..][i]);
        assert ds[i + 1] == ds[1..][i] && forall j :: 0 < j < i + 1 ==> ds[j] == ds[1..][j - 1];
      }
    }
  }

  lemma ValidOffered(v: Value, live: Schema, category: Category, k: Key)
    requires !v.Null? && ValidFilter(v, Allowed([live], Some(category), k))
    ensures live.category == category && Offered(live.filters, k, v)
  {
    assert [live][1..] == [] && SchemaFor([], Some(category)) == None;
    assert live.category == category;
    DefinitionFirst(live.filters, k);
    var i :| 0 <= i < |live.filters| && live.filters[i].key == k && (forall j :: 0 <= j < i ==> live.filters[j].key != k) &&
      DefinitionOf(live.filters, k) == Some(live.filters[i]);
    assert Offers(live.filters[i], v);
  }

  ghost predicate AllProper(desk: Desk) { forall q :: q in desk.queries ==> Proper(q) }

  lemma AdvancedKeeps(w: World, desk: Desk, state: Parsed, live: Input, id: Option<nat>)
    requires AllProper(desk) && Valid(state, live) &&
      (state.category.Some? ==> w.live.Some? && live.schemas == [w.live.value])
    ensures AllProper(Advanced(w, desk, state, live, id).0)
  {
    hide ValidFilter, Allowed, Offered;
    if Complete(state) {
      var q := QueryOf(state, live, w.live.value);
      forall k | k in q.filters ensures q.live.category == q.category && Offered(q.live.filters, k, q.filters[k]) {
        ValidOffered(q.filters[k], q.live, q.category, k);
      }
      assert Proper(q);
    }
  }

  lemma StartedKeeps(w: World, desk: Desk)
    requires AllProper(desk)
    ensures AllProper(Started(w, desk).0)
  {
    hide Valid, Complete, AllProper, Clarified;
    if w.vocabulary.Some? && w.parse.Some? {
      var ready := Ready(w, w.vocabulary.value.(current := None), w.parse.value);
      if ready.Some? { AdvancedKeeps(w, desk, ready.value.1, ready.value.0, None); }
    }
  }

  lemma ContinuedKeeps(w: World, desk: Desk, id: nat)
    requires AllProper(desk)
    ensures AllProper(Continued(w, desk, id).0)
  {
    hide Valid, Complete, AllProper;
    if w.loads && id in desk.sessions && w.vocabulary.Some? && w.parse.Some? {
      var input := w.vocabulary.value.(current := desk.sessions[id].category);
      var ready := Ready(w, input, w.parse.value);
      if ready.Some? {
        var state := Answered(desk.sessions[id], w.parse.value, ready.value.1, input.schemas, ready.value.0);
        if Valid(state, ready.value.0) { AdvancedKeeps(w, desk, state, ready.value.0, Some(id)); }
      }
    }
  }

  /** The answer names a milk field whose value the live schema does not offer. */
  predicate NotOnOffer(w: World, previous: Parsed)
    requires w.vocabulary.Some? && w.parse.Some?
  {
    var input, p := w.vocabulary.value.(current := previous.category), w.parse.value;
    && Selected(p, input) == Some(MILK) && w.live.Some?
    && exists k :: k in {VOLUME, FAT} && Unavailable(p.filters, input.schemas, [w.live.value], Some(MILK), k)
  }

  lemma UnavailableNamed(filters: map<Key, Value>, configured: seq<Schema>, live: seq<Schema>, k: Key)
    requires Unavailable(filters, configured, live, Some(MILK), k)
    ensures k in filters
  {
  }

  /** An answer for a milk field that is not on offer now is asked for again; an earlier value
      never takes its place. */
  lemma NeverReplaced(w: World, desk: Desk, id: nat)
    requires w.loads && id in desk.sessions && w.vocabulary.Some? && w.parse.Some? &&
      NotOnOffer(w, desk.sessions[id])
    ensures var (next, r) := Continued(w, desk, id);
      next.queries == desk.queries && (r == Failure || (r.Clarification? && r.session == id && (VolumeField in r.missing || FatField in r.missing)))
  {
    hide Valid, Unavailable;
    var input := w.vocabulary.value.(current := desk.sessions[id].category);
    var ready := Ready(w, input, w.parse.value);
    if ready.Some? {
      var live, update := ready.value.0, ready.value.1;
      var k :| k in {VOLUME, FAT} && Unavailable(w.parse.value.filters, input.schemas, [w.live.value], Some(MILK), k);
      UnavailableNamed(w.parse.value.filters, input.schemas, [w.live.value], k);
      assert k in Forgotten(w.parse.value, update);
      assert k !in Answered(desk.sessions[id], w.parse.value, update, input.schemas, live).filters;
    }
  }

  /** When nothing fails and the merged state is complete, exactly one query is made, for the intent
      the session had, and the session ends. */
  lemma AnswersInFull(w: World, desk: Desk, id: nat, live: Input, update: Parsed)
    requires w.loads && w.stores && w.products && id in desk.sessions && w.vocabulary.Some? && w.parse.Some?
    requires Ready(w, w.vocabulary.value.(current := desk.sessions[id].category), w.parse.value) == Some((live, update))
    requires var state := Answered(desk.sessions[id], w.parse.value, update, w.vocabulary.value.schemas, live);
      Complete(state) && Valid(state, live)
    ensures var (next, r) := Continued(w, desk, id);
      && r == Result && id !in next.sessions && |next.queries| == |desk.queries| + 1
      && (desk.sessions[id].intent.Some? ==> next.queries[|desk.queries|].intent == desk.sessions[id].intent.value)
  {
    hide Valid, Complete, Ready;
  }

  // ----- what a request remembers and asks for -----

  /** What is refused of an answer: a milk field that is not on offer now. */
  predicate Refused(filters: map<Key, Value>, configured: seq<Schema>, live: seq<Schema>, category: Option<Category>, k: Key) {
    category == Some(MILK) && k in {VOLUME, FAT} && Unavailable(filters, configured, live, category, k)
  }

  /** The state of a session that had `previous` and is told `said`: the first intent, the last
      category, and each filter as last said, as far as the category has it and it is on offer. A
      change of category forgets the earlier filters. */
  ghost predicate Remembers(previous: Parsed, said: Parsed, configured: seq<Schema>, live: seq<Schema>, st: Parsed) {
    && st.category == (if said.category.Some? then said.category else previous.category)
    && st.intent == (if previous.intent.Some? then previous.intent else said.intent)
    && forall k :: RemembersFilter(previous, said, configured, live, st, k)
  }

  ghost predicate RemembersFilter(previous: Parsed, said: Parsed, configured: seq<Schema>, live: seq<Schema>, st: Parsed, k: Key) {
    var earlier := st.category.Some? && st.category == previous.category && k in previous.filters;
    if Allowed(live, st.category, k).None? then k !in st.filters
    else if Said(said, k) then
      if Refused(said.filters, configured, live, st.category, k) then k !in st.filters
      else k in st.filters && st.filters[k] == said.filters[k]
    else if earlier && !Refused(previous.filters, configured, live, st.category, k) then k in st.filters && st.filters[k] == previous.filters[k]
    else k !in st.filters
  }

  /** The query of a state. */
  ghost predicate Carries(q: Query, st: Parsed) {
    && st.category == Some(q.category) && st.intent == Some(q.intent)
    && (forall k :: k in q.filters <==> k in st.filters && !st.filters[k].Null?)
    && forall k :: k in q.filters ==> q.filters[k] == st.filters[k]
  }

  /** What a request does for the state `st` under the session `id`, if it has one. */
  ghost predicate Handles(desk: Desk, id: Option<nat>, token: nat, st: Parsed, next: Desk, r: Reply) {
    match r
    case Clarification(session, missing) =>
      && session == (if id.Some? then id.value else token) && missing == Missing(st) && missing != []
      && next == desk.(sessions := desk.sessions[session := st])
    case Result =>
      && |next.queries| == |desk.queries| + 1 && next.queries[..|desk.queries|] == desk.queries &&
        Carries(next.queries[|desk.queries|], st)
      && next.sessions == if id.Some? then desk.sessions - {id.value} else desk.sessions
    case Failure =>
      && next.sessions == desk.sessions
      && (next.queries == desk.queries ||
        (|next.queries| == |desk.queries| + 1 && next.queries[..|desk.queries|] == desk.queries &&
        Carries(next.queries[|desk.queries|], st)))
    case NotFound => false
  }

  lemma AdvancedHandles(w: World, desk: Desk, state: Parsed, live: Input, id: Option<nat>)
    requires Complete(state) ==> w.live.Some?
    ensures Advanced(w, desk, state, live, id).1 != NotFound
    ensures Handles(desk, id, w.token, state, Advanced(w, desk, state, live, id).0, Advanced(w, desk, state, live, id).1)
  {
    hide Complete, Missing, Carries, QueryOf;
    QuestionMeans(state);
    if Complete(state) {
      var q := QueryOf(state, live, w.live.value);
      QueryCarries(state, live, w.live.value);
      assert (desk.queries + [q])[..|desk.queries|] == desk.queries;
    }
  }

  lemma QueryCarries(state: Parsed, live: Input, schema: Schema)
    requires Complete(state)
    ensures Carries(QueryOf(state, live, schema), state)
  {
  }

  lemma AnsweredRemembers(previous: Parsed, said: Parsed, input: Input, w: World, live: Input, update: Parsed)
    requires input.current == previous.category && Ready(w, input, said) == Some((live, update))
    ensures Remembers(previous, said, input.schemas, live.schemas, Answered(previous, said, update, input.schemas, live))
  {
    hide Valid, ValidFilter, Allowed, Unavailable;
    ReadyMeans(w, input, said, live, update);
    forall k ensures RemembersFilter(previous, said, input.schemas, live.schemas, Answered(previous, said, update, input.schemas, live), k) {
      AnsweredFilter(previous, said, input, live, update, k);
    }
  }

  /** A filter that is not given, or given as null, is never refused. */
  lemma NullStays(filters: map<Key, Value>, configured: seq<Schema>, live: seq<Schema>, category: Option<Category>, k: Key)
    requires k in filters ==> filters[k].Null?
    ensures !Refused(filters, configured, live, category, k)
  {
  }

  lemma AnsweredFilter(previous: Parsed, said: Parsed, input: Input, live: Input, update: Parsed, k: Key)
    requires input.current == previous.category == live.current && update.category == said.category &&
      update.intent == said.intent
    requires forall q :: q in update.filters <==>
      q in said.filters && !Refused(said.filters, input.schemas, live.schemas, Selected(said, input), q)
    requires forall q :: q in update.filters ==> update.filters[q] == said.filters[q]
    ensures RemembersFilter(previous, said, input.schemas, live.schemas, Answered(previous, said, update, input.schemas, live), k)
  {
    hide Allowed, Unavailable;
    var merged := Merged(previous, update, live.schemas);
    var kept := if merged.category == Some(MILK) then merged.filters - Forgotten(said, update) else merged.filters;
    var st := Answered(previous, said, update, input.schemas, live);
    assert st.category == merged.category == Selected(said, input);
    assert Said(update, k) <==> Said(said, k) && !Refused(said.filters, input.schemas, live.schemas, merged.category, k);
    assert k in st.filters <==> k in kept && !Refused(kept, input.schemas, live.schemas, merged.category, k);
    var earlier := st.category.Some? && st.category == previous.category && k in previous.filters;
    if Allowed(live.schemas, st.category, k).None? {
      assert k !in st.filters;
    } else if Said(said, k) {
      if Refused(said.filters, input.schemas, live.schemas, st.category, k) {
        assert k !in update.filters;
        assert k !in kept;
      } else {
        assert k in kept && kept[k] == said.filters[k];
        StillUnavailable(kept, said.filters, input.schemas, live.schemas, merged.category, k);
      }
    } else if earlier {
      NullStays(said.filters, input.schemas, live.schemas, merged.category, k);
      assert k in kept && kept[k] == previous.filters[k];
      StillUnavailable(kept, previous.filters, input.schemas, live.schemas, merged.category, k);
    } else {
      assert k !in kept;
    }
  }

  /** What is taken of an answer: all of it, without the fields that are refused. */
  ghost predicate Passes(said: Parsed, configured: seq<Schema>, live: seq<Schema>, category: Option<Category>, q: Parsed) {
    && q.category == said.category && q.intent == said.intent
    && (forall k :: k in q.filters <==> k in said.filters && !Refused(said.filters, configured, live, category, k))
    && forall k :: k in q.filters ==> q.filters[k] == said.filters[k]
  }

  lemma PassesOnce(said: Parsed, configured: seq<Schema>, live: seq<Schema>, category: Option<Category>, q: Parsed, r: Parsed)
    requires Passes(said, configured, live, category, q) && Passes(said, configured, live, category, r)
    ensures q == r
  {
    hide Refused;
    assert q.filters == r.filters;
  }

  /** An answer that can be taken: valid as it was said, and valid against the schema of its
      category as it is now once the refused fields are gone. */
  ghost predicate Sensible(w: World, input: Input, said: Parsed) {
    && Valid(said, input)
    && (Selected(said, input).Some? ==> w.live.Some?)
    && (Selected(said, input).Some? ==>
          forall q :: Passes(said, input.schemas, [w.live.value], Selected(said, input), q) ==>
            Valid(q, input.(schemas := [w.live.value])))
  }

  lemma ReadyIff(w: World, input: Input, said: Parsed)
    ensures Ready(w, input, said).Some? <==> Sensible(w, input, said)
  {
    hide Valid, Unavailable, Passes;
    if Valid(said, input) && Selected(said, input).Some? && w.live.Some? {
      var live := input.(schemas := [w.live.value]);
      var c := Clarified(said, input.schemas, live);
      ClarifiedPasses(said, input, live);
      forall q | Passes(said, input.schemas, live.schemas, Selected(said, input), q)
        ensures q == c
      {
        PassesOnce(said, input.schemas, live.schemas, Selected(said, input), q, c);
      }
    }
  }

  lemma ClarifiedPasses(said: Parsed, input: Input, live: Input)
    requires live.current == input.current
    ensures Passes(said, input.schemas, live.schemas, Selected(said, input), Clarified(said, input.schemas, live))
  {
    hide Unavailable;
  }

  /** What passes is the answer without the refused fields. */
  lemma ReadyMeans(w: World, input: Input, p: Parsed, live: Input, q: Parsed)
    requires Ready(w, input, p) == Some((live, q))
    ensures q.category == p.category && q.intent == p.intent && live.current == input.current
    ensures forall k :: k in q.filters <==>
      k in p.filters && !Refused(p.filters, input.schemas, live.schemas, Selected(p, input), k)
    ensures forall k :: k in q.filters ==> q.filters[k] == p.filters[k]
  {
    hide Valid, Unavailable;
  }

  /** The schemas a request is held against: the schema of the category as it is now. */
  function Shown(w: World, category: Option<Category>): seq<Schema>
    requires w.vocabulary.Some?
  {
    if category.None? then w.vocabulary.value.schemas else if w.live.Some? then [w.live.value] else []
  }

  lemma ReadyShown(w: World, input: Input, p: Parsed, live: Input, q: Parsed)
    requires w.vocabulary.Some? && input.schemas == w.vocabulary.value.schemas &&
      Ready(w, input, p) == Some((live, q))
    ensures live == input.(schemas := Shown(w, Selected(p, input)))
  {
    hide Valid, Clarified;
  }

  /** One answer: it is remembered under the session it names, or turned into the one query that
      carries the whole state; in any other case nothing is remembered. It is taken exactly when it
      and the state it leads to can be, and nothing outside fails. */
  lemma ContinuedMeans(w: World, desk: Desk, id: nat) returns (st: Parsed)
    ensures var (next, r) := Continued(w, desk, id);
      && (r == NotFound <==> w.loads && id !in desk.sessions)
      && (r == NotFound ==> next == desk)
      && (next != desk || r == Result || r.Clarification? ==>
            && id in desk.sessions && w.parse.Some? && w.vocabulary.Some?
            && Handles(desk, Some(id), w.token, st, next, r)
            && Remembers(desk.sessions[id], w.parse.value, w.vocabulary.value.schemas, Shown(w, st.category), st))
      && (r == Result || r.Clarification? <==>
            && w.loads && id in desk.sessions && w.vocabulary.Some? && w.parse.Some? && w.stores
            && (Missing(st) == [] ==> w.products)
            && var input := w.vocabulary.value.(current := desk.sessions[id].category);
            Sensible(w, input, w.parse.value) && Valid(st, input.(schemas := Shown(w, st.category))))
  {
    hide Valid, Complete, Handles, Remembers, Ready, Answered, Advanced, Missing, Sensible;
    st := Parsed(None, None, map[]);
    if w.loads && id in desk.sessions && w.vocabulary.Some? && w.parse.Some? {
      var input := w.vocabulary.value.(current := desk.sessions[id].category);
      var ready := Ready(w, input, w.parse.value);
      ReadyIff(w, input, w.parse.value);
      if ready.Some? {
        var live, update := ready.value.0, ready.value.1;
        st := Answered(desk.sessions[id], w.parse.value, update, input.schemas, live);
        ReadyShown(w, input, w.parse.value, live, update);
        AnsweredRemembers(desk.sessions[id], w.parse.value, input, w, live, update);
        RemembersSelected(desk.sessions[id], w.parse.value, input, live.schemas, st);
        LiveKnown(w, input, w.parse.value, live, update, desk.sessions[id]);
        AdvancedHandles(w, desk, st, live, Some(id));
        AdvancedSucceeds(w, desk, st, live, Some(id));
      }
    }
  }

  lemma AdvancedSucceeds(w: World, desk: Desk, state: Parsed, live: Input, id: Option<nat>)
    requires Complete(state) ==> w.live.Some?
    ensures var r := Advanced(w, desk, state, live, id).1;
      (r == Result || r.Clarification? <==> if Missing(state) == [] then w.products && (id.Some? ==> w.stores) else w.stores)
  {
    QuestionMeans(state);
    hide Complete, Missing;
  }

  lemma RemembersSelected(previous: Parsed, said: Parsed, input: Input, live: seq<Schema>, st: Parsed)
    requires input.current == previous.category && Remembers(previous, said, input.schemas, live, st)
    ensures st.category == Selected(said, input)
  {
    hide RemembersFilter;
  }

  lemma LiveKnown(w: World, input: Input, p: Parsed, live: Input, q: Parsed, previous: Parsed)
    requires Ready(w, input, p) == Some((live, q)) && input.current == previous.category
    ensures Complete(Answered(previous, p, q, input.schemas, live)) ==> w.live.Some?
  {
    hide Valid;
  }

  /** The first request: the same for a session that has nothing yet. */
  lemma StartedMeans(w: World, desk: Desk) returns (st: Parsed)
    ensures var (next, r) := Started(w, desk);
      && r != NotFound
      && (next != desk || r == Result || r.Clarification? ==>
            && w.parse.Some? && w.vocabulary.Some? && Handles(desk, None, w.token, st, next, r)
            && Passes(w.parse.value, w.vocabulary.value.schemas, Shown(w, st.category), st.category, st))
      && (r == Result || r.Clarification? <==>
            && w.vocabulary.Some? && w.parse.Some? &&
              Sensible(w, w.vocabulary.value.(current := None), w.parse.value)
            && (if Missing(st) == [] then w.products else w.stores))
  {
    hide Valid, Complete, Handles, Ready, Advanced, Refused, Missing, Sensible;
    st := Parsed(None, None, map[]);
    if w.vocabulary.Some? && w.parse.Some? {
      var input := w.vocabulary.value.(current := None);
      var ready := Ready(w, input, w.parse.value);
      ReadyIff(w, input, w.parse.value);
      if ready.Some? {
        st := ready.value.1;
        ReadyMeans(w, input, w.parse.value, ready.value.0, st);
        ReadyShown(w, input, w.parse.value, ready.value.0, st);
        StartKnown(w, input, w.parse.value, ready.value.0, st);
        AdvancedHandles(w, desk, st, ready.value.0, None);
        AdvancedSucceeds(w, desk, st, ready.value.0, None);
      }
    }
  }

  lemma StartKnown(w: World, input: Input, p: Parsed, live: Input, q: Parsed)
    requires Ready(w, input, p) == Some((live, q))
    ensures Complete(q) ==> w.live.Some?
  {
    hide Valid;
  }

  datatype Request = StartRequest(w: World) | ContinueRequest(w: World, id: nat)

  function Served(requests: seq<Request>): Desk {
    if requests == [] then Desk(map[], []) else
      var before := Served(requests[..|requests| - 1]);
      match requests[|requests| - 1]
      case StartRequest(w) => Started(w, before).0
      case ContinueRequest(w, id) => Continued(w, before, id).0
  }

  /** In every run of the dialogue, whatever the parser, the stores and the live catalogue answer,
      every query issued is proper. */
  lemma {:induction false} AlwaysProper(requests: seq<Request>)
    ensures AllProper(Served(requests))
  {
    hide Started, Continued;
    if requests != [] {
      var before := Served(requests[..|requests| - 1]);
      AlwaysProper(requests[..|requests| - 1]);
      match requests[|requests| - 1]
      case StartRequest(w) => StartedKeeps(w, before);
      case ContinueRequest(w, id) => ContinuedKeeps(w, before, id);
    }
  }

  method Dialogue(requests: seq<Request>) returns (queries: seq<Query>)
    ensures queries == Served(requests).queries
    ensures forall q :: q in queries ==> Proper(q)
  {
    hide Started, Continued, Proper;
    var s := new Service();
    for i := 0 to |requests|
      invariant s.Now() == Served(requests[..i])
    {
      assert requests[..i + 1][..i] == requests[..i];
      match requests[i]
      case StartRequest(w) => var r := s.Start(w);
      case ContinueRequest(w, id) => var r := s.Continue(w, id);
    }
    assert requests[..|requests|] == requests;
    AlwaysProper(requests);
    queries := s.queries;
  }
}
