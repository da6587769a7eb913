/** The evidence a session retains, the identities of what it has observed, and its stall guard. */
module EvidenceCache {
  import opened Strings
  import opened Texts

  // Entries, oldest first.

  datatype Entry = Entry(key: string, text: string, bytes: nat)

  function TotalBytes(entries: seq<Entry>): nat {
    if entries == [] then 0 else entries[0].bytes + TotalBytes(entries[1..])
  }

  predicate UniqueKeys(entries: seq<Entry>) {
    forall i, j :: 0 <= i < j < |entries| ==> entries[i].key != entries[j].key
  }

  predicate HasKey(entries: seq<Entry>, key: string) {
    exists e <- entries :: e.key == key
  }

  /** Every entry's size is the size of its text. */
  predicate Measured(entries: seq<Entry>) {
    forall e <- entries :: e.bytes == Bytes(e.text)
  }

  function FindKey(entries: seq<Entry>, key: string): (i: nat)
    ensures i <= |entries|
    ensures i < |entries| ==> entries[i].key == key
    ensures forall k :: 0 <= k < i ==> entries[k].key != key
  {
    if entries == [] || entries[0].key == key then 0 else 1 + FindKey(entries[1..], key)
  }

  function Without(entries: seq<Entry>, key: string): seq<Entry> {
    var i := FindKey(entries, key);
    if i < |entries| then entries[..i] + entries[i + 1..] else entries
  }

  /** Drops the oldest entries until the rest fits. */
  function Shed(entries: seq<Entry>, maxBytes: nat): seq<Entry> {
    if TotalBytes(entries) <= maxBytes || entries == [] then entries else Shed(entries[1..], maxBytes)
  }

  function NewEntry(key: string, text: string, maxBytes: nat): Entry {
    var value := Truncate(text, maxBytes).value;
    Entry(key, value, Bytes(value))
  }

  function Added(entries: seq<Entry>, entry: Entry, maxBytes: nat): seq<Entry> {
    Shed(Without(entries, entry.key) + [entry], maxBytes)
  }

  lemma {:induction false} TotalAppend(a: seq<Entry>, b: seq<Entry>)
    ensures TotalBytes(a + b) == TotalBytes(a) + TotalBytes(b)
  {
    if a == [] {
      assert a + b == b;
      return;
    }
    assert (a + b)[1..] == a[1..] + b;
    TotalAppend(a[1..], b);
  }

  lemma TotalSnoc(entries: seq<Entry>, entry: Entry)
    ensures TotalBytes(entries + [entry]) == TotalBytes(entries) + entry.bytes
  {
    TotalAppend(entries, [entry]);
  }

  lemma WithoutElements(entries: seq<Entry>, key: string)
    requires UniqueKeys(entries)
    ensures forall e :: e in Without(entries, key) <==> e in entries && e.key != key
    ensures |Without(entries, key)| == |entries| - (if HasKey(entries, key) then 1 else 0)
  {
    var i := FindKey(entries, key);
    if i < |entries| {
      assert entries == entries[..i] + [entries[i]] + entries[i + 1..];
      assert entries[i] in entries;
    }
  }

  lemma WithoutKey(entries: seq<Entry>, key: string)
    requires UniqueKeys(entries)
    ensures UniqueKeys(Without(entries, key)) && !HasKey(Without(entries, key), key)
  {
    WithoutElements(entries, key);
  }

  lemma BytesAround(before: seq<Entry>, entry: Entry, after: seq<Entry>)
    ensures TotalBytes(before + ([entry] + after)) == TotalBytes(before + after) + entry.bytes
  {
    TotalAppend(before, [entry] + after);
    TotalAppend(before, after);
    assert ([entry] + after)[1..] == after;
  }

  lemma WithoutBytes(entries: seq<Entry>, key: string)
    ensures var i := FindKey(entries, key);
      TotalBytes(Without(entries, key)) == TotalBytes(entries) - (if i < |entries| then entries[i].bytes else 0)
  {
    hide TotalBytes;
    var i := FindKey(entries, key);
    if i == |entries| { return; }
    assert entries == entries[..i] + ([entries[i]] + entries[i + 1..]);
    BytesAround(entries[..i], entries[i], entries[i + 1..]);
  }

  /** What remains is the longest suffix within the bound. */
  ghost predicate LongestSuffix(kept: seq<Entry>, entries: seq<Entry>, maxBytes: nat) {
    && |kept| <= |entries| && kept == entries[|entries| - |kept|..]
    && TotalBytes(kept) <= maxBytes
    && (forall k :: 0 <= k < |entries| - |kept| ==> TotalBytes(entries[k..]) > maxBytes)
  }

  lemma {:induction false} ShedIsLongest(entries: seq<Entry>, maxBytes: nat)
    ensures LongestSuffix(Shed(entries, maxBytes), entries, maxBytes)
    decreases |entries|
  {
    if TotalBytes(entries) > maxBytes && entries != [] {
      ShedIsLongest(entries[1..], maxBytes);
      forall k | 0 <= k < |entries| - |Shed(entries, maxBytes)| ensures TotalBytes(entries[k..]) > maxBytes {
        if k > 0 { assert entries[k..] == entries[1..][k - 1..]; } else { assert entries[0..] == entries; }
      }
      var n := |Shed(entries, maxBytes)|;
      assert entries[1..][|entries| - 1 - n..] == entries[|entries| - n..];
    }
  }

  lemma SuffixKeeps(all: seq<Entry>, n: nat)
    requires n <= |all| && UniqueKeys(all) && Measured(all)
    ensures UniqueKeys(all[n..]) && Measured(all[n..])
  {
  }

  /** The longest suffix that fits includes the last entry when that one fits alone. */
  lemma LastSurvives(kept: seq<Entry>, before: seq<Entry>, entry: Entry, maxBytes: nat)
    requires LongestSuffix(kept, before + [entry], maxBytes) && entry.bytes <= maxBytes
    ensures kept != [] && kept[|kept| - 1] == entry
  {
    var all := before + [entry];
    assert all[|all| - 1..] == [entry];
    assert TotalBytes([entry]) == entry.bytes;
  }

  /** After an addition keys are unique, the bound holds, and the added entry is there, last. */
  lemma AddedHolds(entries: seq<Entry>, entry: Entry, maxBytes: nat)
    requires UniqueKeys(entries) && Measured(entries) && entry.bytes == Bytes(entry.text) <= maxBytes
    ensures var r := Added(entries, entry, maxBytes);
      && UniqueKeys(r) && Measured(r) && TotalBytes(r) <= maxBytes
      && r != [] && r[|r| - 1] == entry
      && LongestSuffix(r, Without(entries, entry.key) + [entry], maxBytes)
  {
    hide Without, Shed, TotalBytes, Bytes;
    WithoutKey(entries, entry.key);
    WithoutElements(entries, entry.key);
    var all, r := Without(entries, entry.key) + [entry], Added(entries, entry, maxBytes);
    UniqueSnoc(Without(entries, entry.key), entry);
    ShedIsLongest(all, maxBytes);
    SuffixKeeps(all, |all| - |r|);
    LastSurvives(r, Without(entries, entry.key), entry, maxBytes);
  }

  lemma UniqueSnoc(entries: seq<Entry>, entry: Entry)
    requires UniqueKeys(entries) && !HasKey(entries, entry.key)
    ensures UniqueKeys(entries + [entry])
  {
    assert forall i :: 0 <= i < |entries| ==> entries[i] in entries;
  }

  // Identities of observations.

  /** A path that changed, at the revision the change produced. */
  function ChangedId(path: string, revision: nat): string {
    "changed:" + path + ":r" + Decimal(revision)
  }

  function ObservationId(name: string, digests: string): string {
    "observation:" + name + ":" + digests
  }

  predicate IsObservation(id: string) {
    "observation:" <= id
  }

  ghost predicate IsChange(id: string, revision: nat) {
    exists path: string, n: nat {:trigger ChangedId(path, n)} :: n <= revision && id == ChangedId(path, n)
  }

  /** Nothing has been observed of a revision that is still to come. */
  ghost predicate KnownIds(ids: set<string>, revision: nat) {
    forall id <- ids :: IsObservation(id) || IsChange(id, revision)
  }

  lemma ChangedIdRevision(p: string, m: nat, q: string, n: nat)
    requires ChangedId(p, m) == ChangedId(q, n)
    ensures m == n
  {
    var a, b := "changed:" + p + ":", "changed:" + q + ":";
    assert ChangedId(p, m) == a + ['r'] + Decimal(m) && ChangedId(q, n) == b + ['r'] + Decimal(n);
    SplitAtLast(a, b, 'r', Decimal(m), Decimal(n));
    DecimalInjective(m, n);
  }

  /** A change at the next revision is always new. */
  lemma NextChangeIsNovel(ids: set<string>, revision: nat, path: string)
    requires KnownIds(ids, revision)
    ensures ChangedId(path, revision + 1) !in ids
  {
    var id := ChangedId(path, revision + 1);
    if id in ids {
      assert id[0] == 'c' && "observation:"[0] == 'o';
      assert IsChange(id, revision);
      var q, n: nat :| n <= revision && id == ChangedId(q, n);
      ChangedIdRevision(path, revision + 1, q, n);
    }
  }

  lemma KnownLater(ids: set<string>, revision: nat, next: nat)
    requires KnownIds(ids, revision) && revision <= next
    ensures KnownIds(ids, next)
  {
    forall id | id in ids ensures IsObservation(id) || IsChange(id, next) {
      if !IsObservation(id) {
        var path, n: nat :| n <= revision && id == ChangedId(path, n);
        assert n <= next;
      }
    }
  }

  // The stall guard, over the sets of identities known after each finished round.

  ghost predicate Growing(rounds: seq<set<string>>) {
    forall i, j :: 0 <= i <= j < |rounds| ==> rounds[i] <= rounds[j]
  }

  /** The last `idle` rounds brought nothing; the one before them, if any, did. */
  ghost predicate IdleFor(rounds: seq<set<string>>, idle: nat) {
    && idle < |rounds|
    && rounds[|rounds| - 1 - idle] == rounds[|rounds| - 1]
    && (idle + 1 < |rounds| ==> rounds[|rounds| - 2 - idle] != rounds[|rounds| - 1 - idle])
  }

  /** Any `window` consecutive rounds together have brought a new identity. */
  ghost predicate Lively(rounds: seq<set<string>>, window: nat) {
    forall i :: 0 <= i && i + window < |rounds| ==> rounds[i] < rounds[i + window]
  }

  lemma RoundStep(rounds: seq<set<string>>, idle: nat, ids: set<string>)
    requires Growing(rounds) && IdleFor(rounds, idle) && rounds[|rounds| - 1] <= ids
    ensures Growing(rounds + [ids])
    ensures IdleFor(rounds + [ids], if ids == rounds[|rounds| - 1] then idle + 1 else 0)
  {
    var next, last := rounds + [ids], |rounds| - 1;
    forall i, j | 0 <= i <= j < |next| ensures next[i] <= next[j] {
      if j == |rounds| && i < |rounds| { assert rounds[i] <= rounds[last]; }
    }
    if ids == rounds[last] {
      assert next[|next| - 1 - (idle + 1)] == rounds[last - idle];
      if idle + 1 < |rounds| { assert next[|next| - 2 - (idle + 1)] == rounds[last - 1 - idle]; }
    }
  }

  lemma LivelyStep(rounds: seq<set<string>>, idle: nat, ids: set<string>, window: nat)
    requires Growing(rounds) && IdleFor(rounds, idle) && rounds[|rounds| - 1] <= ids && Lively(rounds, window)
    requires window > 0 && (ids != rounds[|rounds| - 1] || idle + 1 < window)
    ensures Lively(rounds + [ids], window)
  {
    var next, last := rounds + [ids], |rounds| - 1;
    forall i | 0 <= i && i + window < |next| ensures next[i] < next[i + window] {
      if i + window == |rounds| {
        assert rounds[i] <= rounds[last];
        if ids == rounds[last] {
          assert rounds[i] <= rounds[last - 1 - idle] < rounds[last - idle];
        }
      } else {
        assert rounds[i] < rounds[i + window];
      }
    }
  }
}
