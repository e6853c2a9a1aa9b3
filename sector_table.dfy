/**
 * The Engine's sector table (dots.js:408-449) as values: which ids each cell
 * holds, and the two phases of Engine.registerDotSectors, purge and insert.
 * A cell of the source maps a dot's id to the dot itself; here it holds the
 * ids, and the dot is found through the Engine's list of dots.
 */
module SectorTable {
  import opened SectorKeys

  /** `Engine.sectors`: for each cell of the grid, the ids of the dots registered in it. */
  type Table = map<Cell, set<int>>

  /** The cells buildSectors allocates: every pair from -1 up to the cell of the canvas's far corner. */
  predicate InGrid(c: Cell, extent: Cell) {
    -1 <= c.x <= extent.x && -1 <= c.y <= extent.y
  }

  /** Every cell listed in `keys` is a cell of the table. */
  predicate KeysIn(keys: seq<Cell>, t: Table) {
    forall c :: c in keys ==> c in t
  }

  /** No cell is listed twice, as in the keys of a JavaScript object. */
  predicate Distinct(keys: seq<Cell>) {
    forall i, j :: 0 <= i < j < |keys| ==> keys[i] != keys[j]
  }

  /**
   * The first phase of registerDotSectors (dots.js:426-428): `id` is deleted
   * from every cell the dot last registered in, and nothing else changes.
   */
  function Purge(t: Table, id: int, keys: seq<Cell>): (r: Table)
    requires KeysIn(keys, t)
    ensures r.Keys == t.Keys
    ensures forall c :: c in r ==> r[c] == if c in keys then t[c] - {id} else t[c]
    decreases |keys|
  {
    if keys == [] then t
    else
      var front := keys[..|keys| - 1];
      var last := keys[|keys| - 1];
      assert forall c :: c in keys <==> c in front || c == last;
      var p := Purge(t, id, front);
      p[last := p[last] - {id}]
  }

  /**
   * The second phase (dots.js:433-448): `id` is added to every cell the dot
   * now registers in, and nothing else changes.
   */
  function Insert(t: Table, id: int, keys: seq<Cell>): (r: Table)
    requires KeysIn(keys, t)
    ensures r.Keys == t.Keys
    ensures forall c :: c in r ==> r[c] == if c in keys then t[c] + {id} else t[c]
    decreases |keys|
  {
    if keys == [] then t
    else
      var front := keys[..|keys| - 1];
      var last := keys[|keys| - 1];
      assert forall c :: c in keys <==> c in front || c == last;
      var p := Insert(t, id, front);
      p[last := p[last] + {id}]
  }

  /**
   * Adding `id` to one more cell of the table is inserting it under one more
   * key, unless the key is already listed, when the table stays as it is.
   */
  lemma InsertOneMore(t: Table, id: int, keys: seq<Cell>, c: Cell)
    requires KeysIn(keys, t) && c in t
    ensures var more := if c in keys then keys else keys + [c];
      && KeysIn(more, t)
      && Insert(t, id, more) == Insert(t, id, keys)[c := Insert(t, id, keys)[c] + {id}]
  {
    var r := Insert(t, id, keys);
    if c in keys {
      assert r[c] + {id} == r[c];
    } else {
      assert (keys + [c])[..|keys|] == keys;
    }
  }

  /**
   * The purge loop of registerDotSectors (dots.js:426-428): deletes `id`
   * from the cells named in `keys`, one key at a time.
   */
  method PurgeKeys(t0: Table, id: int, keys: seq<Cell>) returns (t: Table)
    requires KeysIn(keys, t0)
    ensures t == Purge(t0, id, keys)
  {
    t := t0;
    var k := 0;
    while k < |keys|
      invariant 0 <= k <= |keys|
      invariant KeysIn(keys[..k], t0)
      invariant t == Purge(t0, id, keys[..k])
    {
      assert keys[..k + 1][..k] == keys[..k];
      var s := keys[k];
      t := t[s := t[s] - {id}];
      k := k + 1;
    }
    assert keys[..k] == keys;
  }

  /**
   * The cells a dot registers in: its own cell, then the cell one step ahead,
   * each only when the table has it, and the second only when it is new.
   * All four lookahead iterations compute the same point, so there is no third.
   */
  function Memberships(t: Table, own: Cell, ahead: Cell): (ms: seq<Cell>)
    ensures forall c :: c in ms <==> c in t && (c == own || c == ahead)
    ensures Distinct(ms) && |ms| <= 2
    ensures own in t ==> ms[0] == own
  {
    var first := if own in t then [own] else [];
    if ahead in t && ahead != own then first + [ahead] else first
  }

  /** Which cells a dot registers in depends only on which cells the table has. */
  lemma MembershipsKeys(t: Table, t2: Table, own: Cell, ahead: Cell)
    requires t.Keys == t2.Keys
    ensures Memberships(t, own, ahead) == Memberships(t2, own, ahead)
  {
    assert own in t <==> own in t2.Keys;
    assert ahead in t <==> ahead in t2.Keys;
  }

  /**
   * Registration is exact: if `id` was only in the cells of `oldKeys`, then
   * afterwards it is in a cell exactly when that cell is in `newKeys`, and
   * every other id is in exactly the cells it was in before.
   */
  lemma RegisterExact(t: Table, id: int, oldKeys: seq<Cell>, newKeys: seq<Cell>)
    requires KeysIn(oldKeys, t) && KeysIn(newKeys, t)
    requires forall c :: c in t && id in t[c] ==> c in oldKeys
    ensures var r := Insert(Purge(t, id, oldKeys), id, newKeys);
      && r.Keys == t.Keys
      && (forall c :: c in r ==> (id in r[c] <==> c in newKeys))
      && (forall c, j :: c in r && j != id ==> (j in r[c] <==> j in t[c]))
  {
    var p := Purge(t, id, oldKeys);
    var r := Insert(p, id, newKeys);
    forall c | c in r
      ensures id in r[c] <==> c in newKeys
    {
      assert id !in p[c];
    }
  }

  /**
   * `for (dotId in sector)` visits integer keys in ascending order: the next
   * id visited is the smallest one left.
   */
  method Smallest(s: set<int>) returns (m: int)
    requires s != {}
    ensures m in s && forall k :: k in s ==> m <= k
  {
    HasMember(s);
    m :| m in s;
    var rest := s - {m};
    while rest != {}
      invariant m in s && rest <= s
      invariant forall k :: k in s && k !in rest ==> m <= k
      decreases rest
    {
      HasMember(rest);
      var k :| k in rest;
      if k < m {
        m := k;
      }
      rest := rest - {k};
    }
  }

  /** A non-empty set has a member to pick. */
  lemma HasMember(s: set<int>)
    requires s != {}
    ensures exists k :: k in s
  {
    if forall k :: k !in s {
      assert false;
    }
  }
}
