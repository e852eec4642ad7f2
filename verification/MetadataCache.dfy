/** The generation-stamped metadata cache under concurrency.  One lookup is three atomic
    pieces -- the probe under the shared lock, the table read, the refill under the
    exclusive lock -- and the refill stamps the entry with the generation of that moment.
    The same protocol serves partition_map and node_map, so it is modelled once. */
module MetadataCache {

  datatype Option<T> = None | Some(value: T)

  datatype Entry<V> = Entry(row: V, version: nat)

  datatype Call<K, V> =
    | Missed(key: K)
    | Fetched(key: K, row: V)
    | Answered(key: K, answer: Option<V>, hit: bool)

  datatype Cache<!K, V> = Cache(
    table: map<K, V>,
    generation: nat,
    entries: map<K, Entry<V>>,
    calls: map<nat, Call<K, V>>)

  datatype Step<!K, V> =
    | Probe(b: nat, key: K)
    | Fetch(b: nat)
    | Refill(b: nat)
    | Change(table: map<K, V>)   // a table change together with its generation bump
    | Bump                       // InvalidatePartdistCache on its own

  predicate Fresh<K, V>(c: Cache<K, V>, key: K) {
    key in c.entries && c.entries[key].version == c.generation
  }

  predicate Enabled<K, V>(c: Cache<K, V>, step: Step<K, V>) {
    match step
    case Probe(b, _) => b in c.calls ==> c.calls[b].Answered?
    case Fetch(b) => b in c.calls && c.calls[b].Missed?
    case Refill(b) => b in c.calls && c.calls[b].Fetched?
    case _ => true
  }

  function Stored<K, V>(c: Cache<K, V>, key: K, row: V): Cache<K, V> {
    c.(entries := c.entries[key := Entry(row, c.generation)])
  }

  function Next<K, V>(c: Cache<K, V>, step: Step<K, V>): Cache<K, V>
    requires Enabled(c, step)
  {
    match step
    case Probe(b, key) =>
      c.(calls := c.calls[b := if Fresh(c, key) then Answered(key, Some(c.entries[key].row), true) else Missed(key)])
    case Fetch(b) =>
      var key := c.calls[b].key;
      c.(calls := c.calls[b := if key in c.table then Fetched(key, c.table[key]) else Answered(key, None, false)])
    case Refill(b) =>
      var k, row := c.calls[b].key, c.calls[b].row;
      Stored(c, k, row).(calls := c.calls[b := Answered(k, Some(row), false)])
    case Change(table) => c.(table := table, generation := c.generation + 1)
    case Bump => c.(generation := c.generation + 1)
  }

  function Lookup<K, V>(table: map<K, V>, key: K): Option<V> {
    if key in table then Some(table[key]) else None
  }

  // No entry is stamped in the future, and a fresh entry is the table's row.
  ghost predicate Coherent<K(!new), V>(c: Cache<K, V>) {
    forall key :: key in c.entries ==>
      c.entries[key].version <= c.generation
      && (Fresh(c, key) ==> Lookup(c.table, key) == Some(c.entries[key].row))
  }

  // The row a lookup fetched is the one this table has.
  ghost predicate StillCurrent<K, V>(call: Call<K, V>, table: map<K, V>) {
    call.Fetched? ==> Lookup(table, call.key) == Some(call.row)
  }

  // The hypothesis: a table change leaves every row that was fetched and is not yet
  // refilled as it is -- for one, when no change falls between a table read and its refill.
  ghost predicate Disciplined<K, V>(c: Cache<K, V>, step: Step<K, V>) {
    step.Change? ==> forall b :: b in c.calls ==> StillCurrent(c.calls[b], step.table)
  }

  ghost predicate Runs<K, V>(c: Cache<K, V>, steps: seq<Step<K, V>>)
    decreases |steps|
  {
    steps == [] || (Enabled(c, steps[0]) && Disciplined(c, steps[0]) && Runs(Next(c, steps[0]), steps[1..]))
  }

  ghost function Run<K, V>(c: Cache<K, V>, steps: seq<Step<K, V>>): Cache<K, V>
    requires Runs(c, steps)
    decreases |steps|
  {
    if steps == [] then c else Run(Next(c, steps[0]), steps[1..])
  }

  ghost predicate Inv<K(!new), V>(c: Cache<K, V>) {
    && Coherent(c)
    && forall b :: b in c.calls ==> StillCurrent(c.calls[b], c.table)
  }

  lemma StepKeepsInv<K(!new), V>(c: Cache<K, V>, step: Step<K, V>)
    requires Inv(c) && Enabled(c, step) && Disciplined(c, step)
    ensures Inv(Next(c, step))
  {
  }

  /** A lookup is answered from the cache, without a look at the table, if and only if the
      entry carries the current generation. */
  lemma AnsweredAtOnceIff<K, V>(c: Cache<K, V>, b: nat, key: K)
    requires Enabled(c, Probe(b, key))
    ensures var call := Next(c, Probe(b, key)).calls[b];
            && (call.Answered? <==> key in c.entries && c.entries[key].version == c.generation)
            && (call.Answered? ==> call.answer == Some(c.entries[key].row))
            && (!call.Answered? ==> call.Missed?)
  {
  }

  /** The hypothesis is exact: a table change keeps the cache sound if and only if every row
      fetched and not yet refilled is still the table's. */
  lemma ChangeSoundIff<K(!new), V>(c: Cache<K, V>, table: map<K, V>)
    requires Inv(c)
    ensures Inv(Next(c, Change(table))) <==> forall b :: b in c.calls ==> StillCurrent(c.calls[b], table)
  {
    var d := Next(c, Change(table));
    assert forall key :: key in d.entries ==> !Fresh(d, key);
    if forall b :: b in c.calls ==> StillCurrent(c.calls[b], table) {
      assert forall b :: b in d.calls ==> StillCurrent(d.calls[b], d.table);
    }
  }

  lemma {:induction false} RunKeepsInv<K(!new), V>(c: Cache<K, V>, steps: seq<Step<K, V>>)
    requires Inv(c) && Runs(c, steps)
    ensures Inv(Run(c, steps))
    decreases |steps|
  {
    if steps != [] {
      StepKeepsInv(c, steps[0]);
      RunKeepsInv(Next(c, steps[0]), steps[1..]);
    }
  }

  /** Every answer a lookup gives -- from the cache, from the table or "not found" -- is
      what the table holds at that moment, for every history of lookups of any number of
      backends, changes and bumps in which no change touches a row between its table read
      and its refill. */
  lemma AnswersAreCurrent<K(!new), V>(table: map<K, V>, generation: nat, steps: seq<Step<K, V>>, step: Step<K, V>, b: nat)
    requires var c := Cache(table, generation, map[], map[]);
             Runs(c, steps) && Enabled(Run(c, steps), step)
    requires step == Fetch(b) || step == Refill(b) || (step.Probe? && step.b == b)
    ensures var c := Run(Cache(table, generation, map[], map[]), steps);
            var d := Next(c, step);
            b in d.calls && (d.calls[b].Answered? ==> d.calls[b].answer == Lookup(c.table, d.calls[b].key))
  {
    RunKeepsInv(Cache(table, generation, map[], map[]), steps);
  }

  /** Without the hypothesis: a refill keeps the cache coherent exactly when the row read
      earlier is still the table's row. */
  lemma RefillCoherentIff<K(!new), V>(c: Cache<K, V>, b: nat)
    requires Coherent(c) && Enabled(c, Refill(b))
    ensures Coherent(Next(c, Refill(b))) <==> Lookup(c.table, c.calls[b].key) == Some(c.calls[b].row)
  {
    var k := c.calls[b].key;
    var d := Next(c, Refill(b));
    assert Fresh(d, k);
    if Lookup(c.table, k) == Some(c.calls[b].row) {
      forall key | key in d.entries
        ensures d.entries[key].version <= d.generation
                && (Fresh(d, key) ==> Lookup(d.table, key) == Some(d.entries[key].row))
      {
        if key != k {
          assert key in c.entries && Fresh(c, key) == Fresh(d, key);
        }
      }
    }
  }
}
