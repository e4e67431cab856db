/** The managed index: an array of entries upserted by key through a position map. */
module ManagedIndex {
  import opened Codec

  datatype ManagedEntry = ManagedEntry(kind: string, agent: string, name: string, nativeKey: string, details: string)

  function Key(e: ManagedEntry): string {
    e.kind + "|" + e.agent + "|" + e.name + "|" + e.nativeKey
  }

  lemma FirstBar(a: string, b: string, x: string, y: string)
    requires '|' !in a && '|' !in b && a + "|" + x == b + "|" + y
    ensures a == b && x == y
  {
    var s, t := a + "|" + x, b + "|" + y;
    assert s[|a|] == '|' && t[|b|] == '|';
    assert forall i :: 0 <= i < |a| ==> s[i] == a[i] && a[i] in a;
    assert forall i :: 0 <= i < |b| ==> t[i] == b[i] && b[i] in b;
    assert |a| == |b|;
    assert s[..|a|] == a && t[..|b|] == b;
    assert s[|a| + 1..] == x && t[|b| + 1..] == y;
  }

  /** Of one name and native key, the part up to a separator in the name goes over to the other's name, or the
      two agree. */
  lemma NamesAgreeIff(name: string, key: string, name': string, key': string)
    requires |name| <= |name'|
    ensures name + "|" + key == name' + "|" + key' <==>
              (name == name' && key == key') || exists m: string :: name' == name + "|" + m && key == m + "|" + key'
  {
    var s, t := name + "|" + key, name' + "|" + key';
    if s == t {
      assert s[..|name|] == name && t[..|name'|] == name';
      assert s[|name| + 1..] == key && t[|name'| + 1..] == key';
      if |name| < |name'| {
        var m := name'[|name| + 1..];
        assert name'[|name|] == t[|name|] == s[|name|] == '|';
        assert name' == name + "|" + m;
        assert s[|name| + 1..] == t[|name| + 1..] == m + "|" + key';
      }
    }
    if m: string :| name' == name + "|" + m && key == m + "|" + key' {
      assert name + "|" + (m + "|" + key') == (name + "|" + m) + "|" + key';
    }
  }

  /** `x`'s name is the first part of `y`'s, up to a separator, and the rest stands in `x`'s native key. */
  ghost predicate Confusable(x: ManagedEntry, y: ManagedEntry) {
    exists m: string :: y.name == x.name + "|" + m && x.nativeKey == m + "|" + y.nativeKey
  }

  /** Entries whose kind and agent do not hold the separator share a key exactly if they agree in kind, agent,
      name and native key, or else in kind and agent, and a separator in one name makes them confusable. */
  lemma KeysAgreeIff(x: ManagedEntry, y: ManagedEntry)
    requires forall e :: e in {x, y} ==> '|' !in e.kind && '|' !in e.agent
    ensures Key(x) == Key(y) <==>
              && x.kind == y.kind && x.agent == y.agent
              && ((x.name == y.name && x.nativeKey == y.nativeKey) || Confusable(x, y) || Confusable(y, x))
  {
    assert x in {x, y} && y in {x, y};
    Grouped(x);
    Grouped(y);
    if |x.name| <= |y.name| {
      NamesAgreeIff(x.name, x.nativeKey, y.name, y.nativeKey);
    } else {
      NamesAgreeIff(y.name, y.nativeKey, x.name, x.nativeKey);
    }
    var p, q := x.name + "|" + x.nativeKey, y.name + "|" + y.nativeKey;
    if Key(x) == Key(y) {
      FirstBar(x.kind, y.kind, x.agent + "|" + p, y.agent + "|" + q);
      FirstBar(x.agent, y.agent, p, q);
    }
  }

  /** So without a separator in names too, keys tell entries apart. */
  lemma KeysTellApart(x: ManagedEntry, y: ManagedEntry)
    requires forall e :: e in {x, y} ==> '|' !in e.kind && '|' !in e.agent && '|' !in e.name
    ensures Key(x) == Key(y) <==>
            x.kind == y.kind && x.agent == y.agent && x.name == y.name && x.nativeKey == y.nativeKey
  {
    KeysAgreeIff(x, y);
    assert x in {x, y} && y in {x, y};
    assert forall a: string, m: string :: (a + "|" + m)[|a|] == '|';
  }

  lemma Grouped(e: ManagedEntry)
    ensures Key(e) == e.kind + "|" + (e.agent + "|" + (e.name + "|" + e.nativeKey))
  {
  }

  /** With the separator in a name, different entries can share a key, and one overwrites the other. */
  lemma SeparatorConfuses(kind: string, agent: string, a: string, b: string, c: string, details: string)
    ensures Key(ManagedEntry(kind, agent, a + "|" + b, c, details)) ==
            Key(ManagedEntry(kind, agent, a, b + "|" + c, details))
  {
    var s, t := a + "|" + b + "|" + c, a + "|" + (b + "|" + c);
    assert s == t;
    assert kind + "|" + agent + "|" + (a + "|" + b) + "|" + c == kind + "|" + agent + "|" + s;
    assert kind + "|" + agent + "|" + a + "|" + (b + "|" + c) == kind + "|" + agent + "|" + t;
  }

  /** The last position that holds `k`; an index read from disk may hold a key twice. */
  function LastPos(entries: seq<ManagedEntry>, k: string): (p: Option<nat>)
    ensures p.Some? ==> p.value < |entries| && Key(entries[p.value]) == k
    ensures p.Some? ==> forall i :: p.value < i < |entries| ==> Key(entries[i]) != k
    ensures p.None? ==> forall i :: 0 <= i < |entries| ==> Key(entries[i]) != k
  {
    if entries == [] then None
    else if Key(entries[|entries| - 1]) == k then Some(|entries| - 1)
    else LastPos(entries[..|entries| - 1], k)
  }

  /** The last entry of a batch with key `k`. */
  function LastOf(batch: seq<ManagedEntry>, k: string): Option<ManagedEntry> {
    var p := LastPos(batch, k);
    if p.Some? then Some(batch[p.value]) else None
  }

  function Upsert(entries: seq<ManagedEntry>, e: ManagedEntry): seq<ManagedEntry> {
    var p := LastPos(entries, Key(e));
    if p.Some? then entries[p.value := e] else entries + [e]
  }

  function UpsertAll(entries: seq<ManagedEntry>, batch: seq<ManagedEntry>): seq<ManagedEntry> {
    if batch == [] then entries else Upsert(UpsertAll(entries, batch[..|batch| - 1]), batch[|batch| - 1])
  }

  /** The position map agrees with the array. */
  ghost predicate Indexes(pos: map<string, nat>, entries: seq<ManagedEntry>) {
    && (forall k :: k in pos <==> LastPos(entries, k).Some?)
    && (forall k :: k in pos ==> LastPos(entries, k) == Some(pos[k]))
  }

  lemma LastPosAppended(entries: seq<ManagedEntry>, e: ManagedEntry, k: string)
    ensures LastPos(entries + [e], k) == if Key(e) == k then Some(|entries|) else LastPos(entries, k)
  {
    hide Key;
    assert (entries + [e])[..|entries|] == entries;
  }

  /** Overwriting an entry by one of the same key moves no key. */
  lemma {:induction false} LastPosOverwritten(entries: seq<ManagedEntry>, i: nat, e: ManagedEntry, k: string)
    requires i < |entries| && Key(entries[i]) == Key(e)
    ensures LastPos(entries[i := e], k) == LastPos(entries, k)
  {
    hide Key;
    var n := |entries| - 1;
    if i == n {
      assert entries[i := e][..n] == entries[..n];
    } else {
      assert entries[i := e][..n] == entries[..n][i := e];
      LastPosOverwritten(entries[..n], i, e, k);
    }
  }

  /** The index file's contents. */
  class Index {
    var entries: seq<ManagedEntry>

    constructor (entries: seq<ManagedEntry>)
      ensures this.entries == entries
    {
      this.entries := entries;
    }

    /** WriteManagedIndex */
    method Write(batch: seq<ManagedEntry>)
      modifies this
      ensures entries == UpsertAll(old(entries), batch)
    {
      if batch == [] {
        return;
      }
      hide Key, LastPos, Upsert;
      var pos := Positions();
      for j := 0 to |batch|
        invariant entries == UpsertAll(old(entries), batch[..j]) && Indexes(pos, entries)
      {
        assert batch[..j + 1][..j] == batch[..j];
        pos := Put(pos, batch[j]);
      }
      assert batch[..|batch|] == batch;
    }

    method Positions() returns (pos: map<string, nat>)
      ensures Indexes(pos, entries)
    {
      hide Key;
      pos := map[];
      for i := 0 to |entries|
        invariant Indexes(pos, entries[..i])
      {
        assert entries[..i + 1] == entries[..i] + [entries[i]];
        forall k {
          LastPosAppended(entries[..i], entries[i], k);
        }
        pos := pos[Key(entries[i]) := i];
      }
      assert entries[..|entries|] == entries;
    }

    /** The second loop's body. */
    method Put(pos: map<string, nat>, e: ManagedEntry) returns (pos': map<string, nat>)
      requires Indexes(pos, entries)
      modifies this
      ensures entries == Upsert(old(entries), e) && Indexes(pos', entries)
    {
      var k := Key(e);
      UpsertMovesNoKey(entries, e);
      hide Key;
      if k in pos {
        entries := entries[pos[k] := e];
        pos' := pos;
      } else {
        pos' := pos[k := |entries|];
        entries := entries + [e];
      }
    }
  }

  // ------------------------------------------------------------------ what the upsert means

  lemma LastOfAppended(batch: seq<ManagedEntry>, e: ManagedEntry, k: string)
    ensures LastOf(batch + [e], k) == if Key(e) == k then Some(e) else LastOf(batch, k)
  {
    hide Key;
    LastPosAppended(batch, e, k);
  }

  /** The i-th entry after the upsert: the batch's last word if the position is its key's last, else what
      was there. */
  function Entry(entries: seq<ManagedEntry>, batch: seq<ManagedEntry>, r: seq<ManagedEntry>,
                 i: nat): Option<ManagedEntry>
    requires i < |r|
  {
    var said := LastOf(batch, Key(r[i]));
    if said.Some? && LastPos(r, Key(r[i])) == Some(i) then said
    else if i < |entries| then Some(entries[i])
    else None
  }

  /** Entries keep their positions and their keys; each is what the batch last said of its key, or what it
      was; new keys come behind, in the order the batch first names them. */
  lemma {:induction false} UpsertAllMeans(entries: seq<ManagedEntry>, batch: seq<ManagedEntry>)
    ensures
      var r := UpsertAll(entries, batch);
      && |entries| <= |r| && (forall i :: 0 <= i < |entries| ==> Key(r[i]) == Key(entries[i]))
      && (forall i :: 0 <= i < |r| ==> Entry(entries, batch, r, i) == Some(r[i]))
      && (forall e :: e in batch ==> LastPos(r, Key(e)).Some?)
      && NewKeys(r[|entries|..]) == FirstSeen(entries, batch)
    decreases |batch|
  {
    hide Key;
    if batch == [] {
      assert UpsertAll(entries, batch)[|entries|..] == [];
    } else {
      var front, e := batch[..|batch| - 1], batch[|batch| - 1];
      assert batch == front + [e];
      UpsertAllMeans(entries, front);
      UpsertMeans(entries, front, UpsertAll(entries, front), e);
    }
  }

  lemma UpsertMeans(entries: seq<ManagedEntry>, front: seq<ManagedEntry>, m: seq<ManagedEntry>, e: ManagedEntry)
    requires |entries| <= |m| && (forall i :: 0 <= i < |entries| ==> Key(m[i]) == Key(entries[i]))
    requires forall i :: 0 <= i < |m| ==> Entry(entries, front, m, i) == Some(m[i])
    requires forall x :: x in front ==> LastPos(m, Key(x)).Some?
    requires NewKeys(m[|entries|..]) == FirstSeen(entries, front)
    ensures
      var r := Upsert(m, e);
      && |entries| <= |r| && (forall i :: 0 <= i < |entries| ==> Key(r[i]) == Key(entries[i]))
      && (forall i :: 0 <= i < |r| ==> Entry(entries, front + [e], r, i) == Some(r[i]))
      && (forall x :: x in front + [e] ==> LastPos(r, Key(x)).Some?)
      && NewKeys(r[|entries|..]) == FirstSeen(entries, front + [e])
  {
    hide Key, Entry, NewKeys, FirstSeen;
    var r := Upsert(m, e);
    UpsertMovesNoKey(m, e);
    forall i | 0 <= i < |r|
      ensures Entry(entries, front + [e], r, i) == Some(r[i])
    {
      EntryAfterUpsert(entries, front, m, e, i);
    }
    NewKeysGrow(entries, front, m, e);
  }

  lemma UpsertMovesNoKey(m: seq<ManagedEntry>, e: ManagedEntry)
    ensures forall k :: LastPos(Upsert(m, e), k) ==
              if LastPos(m, Key(e)).None? && k == Key(e) then Some(|m|) else LastPos(m, k)
  {
    hide Key;
    var p := LastPos(m, Key(e));
    forall k
      ensures LastPos(Upsert(m, e), k) == if p.None? && k == Key(e) then Some(|m|) else LastPos(m, k)
    {
      if p.Some? {
        LastPosOverwritten(m, p.value, e, k);
      } else {
        LastPosAppended(m, e, k);
      }
    }
  }

  lemma EntryAfterUpsert(entries: seq<ManagedEntry>, front: seq<ManagedEntry>, m: seq<ManagedEntry>, e: ManagedEntry,
                         i: nat)
    requires |entries| <= |m| && i < |Upsert(m, e)| && (i < |m| ==> Entry(entries, front, m, i) == Some(m[i]))
    ensures Entry(entries, front + [e], Upsert(m, e), i) == Some(Upsert(m, e)[i])
  {
    hide Key;
    UpsertMovesNoKey(m, e);
    LastOfAppended(front, e, Key(Upsert(m, e)[i]));
    hide LastPos, LastOf;
  }

  function NewKeys(entries: seq<ManagedEntry>): seq<string> {
    seq(|entries|, i requires 0 <= i < |entries| => Key(entries[i]))
  }

  /** The batch's keys that the index lacks, each where it first comes. */
  function FirstSeen(entries: seq<ManagedEntry>, batch: seq<ManagedEntry>): seq<string> {
    if batch == [] then []
    else
      var front, k := batch[..|batch| - 1], Key(batch[|batch| - 1]);
      FirstSeen(entries, front) + if LastPos(entries, k).Some? || LastPos(front, k).Some? then [] else [k]
  }

  lemma NewKeysGrow(entries: seq<ManagedEntry>, front: seq<ManagedEntry>, m: seq<ManagedEntry>, e: ManagedEntry)
    requires |entries| <= |m| && (forall i :: 0 <= i < |entries| ==> Key(m[i]) == Key(entries[i]))
    requires forall i :: 0 <= i < |m| ==> Entry(entries, front, m, i) == Some(m[i])
    requires forall x :: x in front ==> LastPos(m, Key(x)).Some?
    requires NewKeys(m[|entries|..]) == FirstSeen(entries, front)
    ensures NewKeys(Upsert(m, e)[|entries|..]) == FirstSeen(entries, front + [e])
  {
    hide Key, Entry, NewKeys, FirstSeen;
    var p := LastPos(m, Key(e));
    HeldKeys(entries, front, m, Key(e));
    FirstSeenAppended(entries, front, e);
    if p.Some? {
      OverwriteKeepsKeys(m, p.value, e, |entries|);
    } else {
      AppendAddsKey(m, e, |entries|);
    }
  }

  lemma FirstSeenAppended(entries: seq<ManagedEntry>, front: seq<ManagedEntry>, e: ManagedEntry)
    ensures FirstSeen(entries, front + [e])
            == FirstSeen(entries, front)
               + if LastPos(entries, Key(e)).Some? || LastPos(front, Key(e)).Some? then [] else [Key(e)]
  {
    hide Key;
    assert (front + [e])[..|front|] == front;
  }

  lemma OverwriteKeepsKeys(m: seq<ManagedEntry>, i: nat, e: ManagedEntry, n: nat)
    requires i < |m| && n <= |m| && Key(m[i]) == Key(e)
    ensures NewKeys(m[i := e][n..]) == NewKeys(m[n..])
  {
    hide Key;
  }

  lemma AppendAddsKey(m: seq<ManagedEntry>, e: ManagedEntry, n: nat)
    requires n <= |m|
    ensures NewKeys((m + [e])[n..]) == NewKeys(m[n..]) + [Key(e)]
  {
    hide Key;
    assert (m + [e])[n..] == m[n..] + [e];
  }

  /** After the batch so far, the index holds the keys it had and the batch's. */
  lemma HeldKeys(entries: seq<ManagedEntry>, front: seq<ManagedEntry>, m: seq<ManagedEntry>, k: string)
    requires |entries| <= |m| && (forall i :: 0 <= i < |entries| ==> Key(m[i]) == Key(entries[i]))
    requires forall i :: 0 <= i < |m| ==> Entry(entries, front, m, i) == Some(m[i])
    requires forall x :: x in front ==> LastPos(m, Key(x)).Some?
    ensures LastPos(m, k).Some? <==> LastPos(entries, k).Some? || LastPos(front, k).Some?
  {
    hide Key;
    if LastPos(entries, k).Some? {
      assert Key(m[LastPos(entries, k).value]) == k;
    } else if LastPos(front, k).Some? {
      assert front[LastPos(front, k).value] in front;
    }
  }

  /** The last write of a key wins; other keys are looked up as before. */
  lemma LastWriteWins(entries: seq<ManagedEntry>, batch: seq<ManagedEntry>, k: string)
    ensures LastOf(UpsertAll(entries, batch), k) == if LastOf(batch, k).Some? then LastOf(batch, k)
            else LastOf(entries, k)
  {
    hide Key;
    UpsertAllMeans(entries, batch);
    var r := UpsertAll(entries, batch);
    var p := LastPos(r, k);
    if p.Some? {
      assert Entry(entries, batch, r, p.value) == Some(r[p.value]);
    }
    if LastOf(batch, k).Some? {
      assert batch[LastPos(batch, k).value] in batch;
    } else if LastPos(entries, k).Some? {
      var i := LastPos(entries, k).value;
      assert Key(r[i]) == k && p.value >= i;
      assert p.value < |entries| ==> Key(entries[p.value]) == k;
    }
  }

  /** An entry whose key the batch does not name stays where and what it was. */
  lemma UntouchedStay(entries: seq<ManagedEntry>, batch: seq<ManagedEntry>, i: nat)
    requires i < |entries| && LastOf(batch, Key(entries[i])).None?
    ensures |entries| <= |UpsertAll(entries, batch)| && UpsertAll(entries, batch)[i] == entries[i]
  {
    hide Key;
    UpsertAllMeans(entries, batch);
    assert Entry(entries, batch, UpsertAll(entries, batch), i) == Some(UpsertAll(entries, batch)[i]);
  }

  predicate UniqueKeys(entries: seq<ManagedEntry>) {
    forall i, j :: 0 <= i < j < |entries| ==> Key(entries[i]) != Key(entries[j])
  }

  lemma {:induction false} UpsertKeepsUnique(entries: seq<ManagedEntry>, batch: seq<ManagedEntry>)
    requires UniqueKeys(entries)
    ensures UniqueKeys(UpsertAll(entries, batch))
    decreases |batch|
  {
    hide Key;
    if batch != [] {
      UpsertKeepsUnique(entries, batch[..|batch| - 1]);
    }
  }

  /** Installing the same batch twice leaves the index as once. */
  lemma UpsertTwice(entries: seq<ManagedEntry>, batch: seq<ManagedEntry>)
    ensures UpsertAll(UpsertAll(entries, batch), batch) == UpsertAll(entries, batch)
  {
    hide Key;
    var r := UpsertAll(entries, batch);
    var r2 := UpsertAll(r, batch);
    UpsertAllMeans(entries, batch);
    UpsertAllMeans(r, batch);
    NoNewKeys(r, batch);
    assert NewKeys(r2[|r|..]) == [];
    assert |r2| == |r|;
    SameKeysSamePositions(r, r2);
    forall i | 0 <= i < |r|
      ensures r2[i] == r[i]
    {
      assert Entry(entries, batch, r, i) == Some(r[i]) && Entry(r, batch, r2, i) == Some(r2[i]);
    }
  }

  lemma {:induction false} NoNewKeys(entries: seq<ManagedEntry>, batch: seq<ManagedEntry>)
    requires forall e :: e in batch ==> LastPos(entries, Key(e)).Some?
    ensures FirstSeen(entries, batch) == []
    decreases |batch|
  {
    hide Key;
    if batch != [] {
      NoNewKeys(entries, batch[..|batch| - 1]);
    }
  }

  lemma {:induction false} SameKeysSamePositions(a: seq<ManagedEntry>, b: seq<ManagedEntry>)
    requires |a| == |b| && forall i :: 0 <= i < |a| ==> Key(a[i]) == Key(b[i])
    ensures forall k :: LastPos(a, k) == LastPos(b, k)
    decreases |a|
  {
    hide Key;
    if a != [] {
      SameKeysSamePositions(a[..|a| - 1], b[..|b| - 1]);
    }
  }
}
