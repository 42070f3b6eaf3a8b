/** The fractional search's memo table: 64 slots, open addressing with linear probing, no deletion. Its meaning is a
    finite map that stops growing at 64 keys. */
module SubpelCache {
  import opened Arith
  import opened FiniteSets

  const SLOTS := 64

  datatype Eval = Eval(cost: int, variance: int, sse: int, ok: bool)

  datatype Key = Key(row: int, col: int)

  datatype Lookup = Hit(eval: Eval) | Miss

  /** The low bits of the exclusive or of two's-complement integers. */
  function LowXor(a: int, b: int, bits: nat): (r: int)
    ensures 0 <= r < PowerOfTwo(bits)
    decreases bits
  {
    if bits == 0 then 0
    else (if a % 2 == b % 2 then 0 else 1) + 2 * LowXor(a / 2, b / 2, bits - 1)
  }

  /** Where a key's probes start: the low six bits of (row * 33) ^ col. */
  function Index(key: Key): (i: int)
    ensures 0 <= i < SLOTS
  {
    assert PowerOfTwo(6) == SLOTS;
    LowXor(key.row * 33, key.col, 6)
  }

  /** The slot of a key's d-th probe. */
  function Probe(key: Key, d: nat): (i: int)
    requires d <= SLOTS
    ensures 0 <= i < SLOTS
  {
    var i := Index(key) + d;
    if i < SLOTS then i else i - SLOTS
  }

  /** Storing overwrites, or adds while fewer than 64 keys are held; a full table is left alone. */
  function Stored(m: map<Key, Eval>, key: Key, eval: Eval): map<Key, Eval> {
    if key in m || |m| < SLOTS then m[key := eval] else m
  }

  /** The 64 probes of a key visit every slot. */
  lemma ProbesCover(key: Key, slot: int) returns (d: nat)
    requires 0 <= slot < SLOTS
    ensures d < SLOTS && Probe(key, d) == slot
  {
    d := if Index(key) <= slot then slot - Index(key) else slot + SLOTS - Index(key);
  }

  /* The table as a value */

  datatype Table = Table(keys: seq<Key>, eval: seq<Eval>, used: seq<bool>) {
    ghost predicate Shape() {
      |keys| == SLOTS && |eval| == SLOTS && |used| == SLOTS
    }

    function Written(i: int, key: Key, e: Eval): Table
      requires Shape() && 0 <= i < SLOTS
    {
      Table(keys[i := key], eval[i := e], used[i := true])
    }
  }

  ghost function UsedSlots(t: Table): set<int>
    requires t.Shape()
  {
    set i | 0 <= i < SLOTS && t.used[i]
  }

  ghost predicate IsEntry(t: Table, slot: int, key: Key, e: Eval)
    requires t.Shape() && 0 <= slot < SLOTS
  {
    t.used[slot] && t.keys[slot] == key && t.eval[slot] == e
  }

  /** A stored key sits d probes along an unbroken chain of used slots. */
  ghost predicate Holds(t: Table, m: map<Key, Eval>, depth: map<Key, nat>, key: Key)
    requires t.Shape()
  {
    && key in m && key in depth && depth[key] < SLOTS
    && IsEntry(t, Probe(key, depth[key]), key, m[key])
    && (forall e :: 0 <= e < depth[key] ==> t.used[Probe(key, e)])
  }

  /** A used slot is where its key's chain ends, so no key is stored twice. */
  ghost predicate InPlace(t: Table, m: map<Key, Eval>, depth: map<Key, nat>, i: int)
    requires t.Shape() && 0 <= i < SLOTS
  {
    t.used[i] ==>
      t.keys[i] in m && t.keys[i] in depth && depth[t.keys[i]] < SLOTS && Probe(t.keys[i], depth[t.keys[i]]) == i
  }

  /** The table stands for the map m. */
  ghost predicate Represents(t: Table, m: map<Key, Eval>, depth: map<Key, nat>) {
    && t.Shape()
    && (forall key {:trigger Holds(t, m, depth, key)} :: key in m ==> Holds(t, m, depth, key))
    && (forall i {:trigger InPlace(t, m, depth, i)} :: 0 <= i < SLOTS ==> InPlace(t, m, depth, i))
    && |m| == |UsedSlots(t)|
  }

  /** The first `step` probes of the key found other keys. */
  ghost predicate PassedOver(t: Table, key: Key, step: nat)
    requires t.Shape() && step <= SLOTS
  {
    forall d :: 0 <= d < step ==> t.used[Probe(key, d)] && t.keys[Probe(key, d)] != key
  }

  lemma FoundAt(t: Table, m: map<Key, Eval>, depth: map<Key, nat>, i: int)
    requires Represents(t, m, depth) && 0 <= i < SLOTS && t.used[i]
    ensures t.keys[i] in m && t.eval[i] == m[t.keys[i]]
  {
    assert InPlace(t, m, depth, i);
    assert Holds(t, m, depth, t.keys[i]);
  }

  /** A free slot on the key's probe path shows that the key is not stored. */
  lemma AbsentAtFreeSlot(t: Table, m: map<Key, Eval>, depth: map<Key, nat>, key: Key, step: nat)
    requires Represents(t, m, depth) && step < SLOTS && !t.used[Probe(key, step)] && PassedOver(t, key, step)
    ensures key !in m
  {
    assert key in m ==> Holds(t, m, depth, key);
  }

  /** When all 64 probes pass over other keys the table is full. */
  lemma AllProbed(t: Table, m: map<Key, Eval>, depth: map<Key, nat>, key: Key)
    requires Represents(t, m, depth) && PassedOver(t, key, SLOTS)
    ensures key !in m && |m| == SLOTS
  {
    assert key in m ==> Holds(t, m, depth, key);
    forall i | 0 <= i < SLOTS
      ensures t.used[i]
    {
      var d := ProbesCover(key, i);
    }
    WholeRange(UsedSlots(t), SLOTS);
  }

  /** Filling the free slot where the key's probes ended adds the key. */
  lemma FillKeeps(t: Table, m: map<Key, Eval>, depth: map<Key, nat>, key: Key, step: nat, e: Eval)
    requires Represents(t, m, depth) && step < SLOTS && !t.used[Probe(key, step)] && PassedOver(t, key, step)
    ensures Represents(t.Written(Probe(key, step), key, e), m[key := e], depth[key := step])
    ensures |m| < SLOTS && key !in m
  {
    var slot := Probe(key, step);
    var t', m', depth' := t.Written(slot, key, e), m[key := e], depth[key := step];
    AbsentAtFreeSlot(t, m, depth, key, step);
    MissesOne(UsedSlots(t), slot, SLOTS);
    assert UsedSlots(t') == UsedSlots(t) + {slot};
    forall k | k in m'
      ensures Holds(t', m', depth', k)
    {
      if k != key {
        FillHolds(t, m, depth, slot, key, step, e, k);
      }
    }
    forall i | 0 <= i < SLOTS
      ensures InPlace(t', m', depth', i)
    {
      assert InPlace(t, m, depth, i);
    }
  }

  lemma OverwriteHolds(t: Table, m: map<Key, Eval>, depth: map<Key, nat>, i: int, e: Eval, k: Key)
    requires t.Shape() && 0 <= i < SLOTS && t.used[i]
    requires InPlace(t, m, depth, i) && Holds(t, m, depth, k)
    ensures Holds(t.Written(i, t.keys[i], e), m[t.keys[i] := e], depth, k)
  {
  }

  lemma FillHolds(t: Table, m: map<Key, Eval>, depth: map<Key, nat>, slot: int, key: Key, step: nat, e: Eval, k: Key)
    requires t.Shape() && 0 <= slot < SLOTS && !t.used[slot] && step < SLOTS
    requires k != key && Holds(t, m, depth, k)
    ensures Holds(t.Written(slot, key, e), m[key := e], depth[key := step], k)
  {
  }

  /** Rewriting a used slot under its own key overwrites the key's value. */
  lemma OverwriteKeeps(t: Table, m: map<Key, Eval>, depth: map<Key, nat>, i: int, e: Eval)
    requires Represents(t, m, depth) && 0 <= i < SLOTS && t.used[i]
    ensures Represents(t.Written(i, t.keys[i], e), m[t.keys[i] := e], depth)
    ensures t.keys[i] in m
  {
    var key := t.keys[i];
    var t', m' := t.Written(i, key, e), m[key := e];
    FoundAt(t, m, depth, i);
    assert t'.used == t.used && t'.keys == t.keys;
    forall k | k in m'
      ensures Holds(t', m', depth, k)
    {
      OverwriteHolds(t, m, depth, i, e, k);
    }
    forall j | 0 <= j < SLOTS
      ensures InPlace(t', m', depth, j)
    {
      assert InPlace(t, m, depth, j);
    }
  }

  /* The table in place */

  class SubpelEvalCache {
    const rows: array<int>
    const cols: array<int>
    const eval: array<Eval>
    const used: array<bool>
    /** The map the table stands for, and how many probes reach each stored key. */
    ghost var contents: map<Key, Eval>
    ghost var depth: map<Key, nat>

    ghost predicate Shape()
      reads this
    {
      && rows.Length == SLOTS && cols.Length == SLOTS && eval.Length == SLOTS && used.Length == SLOTS
      && rows != cols
    }

    ghost function Value(): (t: Table)
      requires Shape()
      reads this, rows, cols, eval, used
      ensures t.Shape()
    {
      Table(seq(SLOTS, i requires 0 <= i < SLOTS && Shape() reads this, rows, cols => Key(rows[i], cols[i])),
            eval[..], used[..])
    }

    ghost predicate Valid()
      reads this, rows, cols, eval, used
    {
      Shape() && Represents(Value(), contents, depth)
    }

    constructor ()
      ensures Valid() && contents == map[]
      ensures fresh(rows) && fresh(cols) && fresh(eval) && fresh(used)
    {
      rows := new int[SLOTS](_ => 0);
      cols := new int[SLOTS](_ => 0);
      eval := new Eval[SLOTS](_ => Eval(0, 0, 0, false));
      used := new bool[SLOTS](_ => false);
      contents, depth := map[], map[];
      new;
      assert forall i :: 0 <= i < SLOTS ==> !Value().used[i];
      assert UsedSlots(Value()) == {};
    }

    /** Returns the last value stored for the key, and misses exactly when there is none. */
    method Get(row: int, col: int) returns (found: Lookup)
      requires Valid()
      ensures found == if Key(row, col) in contents then Hit(contents[Key(row, col)]) else Miss
    {
      ghost var t, key := Value(), Key(row, col);
      var index := Index(Key(row, col));
      for step := 0 to SLOTS
        invariant index == Probe(key, step)
        invariant PassedOver(t, key, step)
      {
        if !used[index] {
          AbsentAtFreeSlot(t, contents, depth, key, step);
          return Miss;
        }
        if rows[index] == row && cols[index] == col {
          FoundAt(t, contents, depth, index);
          return Hit(eval[index]);
        }
        index := (index + 1) % SLOTS;
      }
      AllProbed(t, contents, depth, key);
      return Miss;
    }

    /** Fills or overwrites the slot where the key's probes ended. */
    method Write(index: int, row: int, col: int, e: Eval, ghost step: nat)
      requires Valid() && step < SLOTS && index == Probe(Key(row, col), step)
      requires PassedOver(Value(), Key(row, col), step)
      requires !used[index] || (rows[index] == row && cols[index] == col)
      modifies this`contents, this`depth, rows, cols, eval, used
      ensures Valid()
      ensures contents == Stored(old(contents), Key(row, col), e)
    {
      ghost var t, key := Value(), Key(row, col);
      if !used[index] {
        FillKeeps(t, contents, depth, key, step, e);
        depth := depth[key := step];
      } else {
        OverwriteKeeps(t, contents, depth, index, e);
      }
      contents := contents[key := e];
      used[index] := true;
      rows[index], cols[index] := row, col;
      eval[index] := e;
      assert Value() == t.Written(index, key, e);
    }

    /** Overwrites a stored key, adds a new one while there is room, and otherwise changes nothing. */
    method Put(row: int, col: int, e: Eval)
      requires Valid()
      modifies this`contents, this`depth, rows, cols, eval, used
      ensures Valid()
      ensures contents == Stored(old(contents), Key(row, col), e)
    {
      ghost var t, key := Value(), Key(row, col);
      var index := Index(Key(row, col));
      for step := 0 to SLOTS
        invariant index == Probe(key, step)
        invariant PassedOver(t, key, step)
        invariant Value() == t && contents == old(contents) && depth == old(depth)
      {
        if !used[index] || (rows[index] == row && cols[index] == col) {
          Write(index, row, col, e, step);
          return;
        }
        index := (index + 1) % SLOTS;
      }
      AllProbed(t, contents, depth, key);
    }
  }

  /* What the map means over any sequence of stores */

  datatype Store = Store(key: Key, eval: Eval)

  function StoredAll(stores: seq<Store>, n: nat): map<Key, Eval>
    requires n <= |stores|
  {
    if n == 0 then map[] else Stored(StoredAll(stores, n - 1), stores[n - 1].key, stores[n - 1].eval)
  }

  function KeysOf(stores: seq<Store>, n: nat): set<Key>
    requires n <= |stores|
  {
    if n == 0 then {} else KeysOf(stores, n - 1) + {stores[n - 1].key}
  }

  /** Never more than 64 keys, all of them stored ones; while no more than 64 keys have been stored, all of them. */
  lemma {:induction false} NeverOverfull(stores: seq<Store>, n: nat)
    requires n <= |stores|
    ensures |StoredAll(stores, n)| <= SLOTS
    ensures StoredAll(stores, n).Keys <= KeysOf(stores, n)
    ensures |KeysOf(stores, n)| <= SLOTS ==> StoredAll(stores, n).Keys == KeysOf(stores, n)
  {
    if n > 0 {
      NeverOverfull(stores, n - 1);
      StoreKeeps(StoredAll(stores, n - 1), KeysOf(stores, n - 1), stores[n - 1].key, stores[n - 1].eval);
    }
  }

  lemma StoreKeeps(m: map<Key, Eval>, seen: set<Key>, key: Key, eval: Eval)
    requires |m| <= SLOTS && m.Keys <= seen && (|seen| <= SLOTS ==> m.Keys == seen)
    ensures var after := Stored(m, key, eval);
            && |after| <= SLOTS && after.Keys <= seen + {key}
            && (|seen + {key}| <= SLOTS ==> after.Keys == seen + {key})
  {
    assert |m| == |m.Keys|;
    assert m[key := eval].Keys == m.Keys + {key};
    assert |m[key := eval]| == |m.Keys + {key}|;
    if key in seen {
      assert seen + {key} == seen;
    }
  }

  /** The last store of a key is what it maps to, and keys stored once stay, whatever else is stored. */
  lemma {:induction false} LastStoreWins(stores: seq<Store>, m: nat, n: nat)
    requires m < n <= |stores|
    requires stores[m].key in StoredAll(stores, m) || |StoredAll(stores, m)| < SLOTS
    requires forall i :: m < i < n ==> stores[i].key != stores[m].key
    ensures stores[m].key in StoredAll(stores, n) && StoredAll(stores, n)[stores[m].key] == stores[m].eval
    decreases n
  {
    if n > m + 1 {
      LastStoreWins(stores, m, n - 1);
    }
  }
}
