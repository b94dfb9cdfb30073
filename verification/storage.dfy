/**
 The persistence hook of app/hooks/useGameStorage.ts over one abstract key-value
 store. Serialisation is the identity: a stored value is the document itself, and
 `Corrupt` stands for text that `JSON.parse` rejects. Each backend call that can throw
 takes a `fault` flag; the hook catches every exception, so a failed write leaves the
 store as it was and a failed read yields the default.
 */
module Storage {
  import opened Wrappers
  import opened GameTypes

  /** `STORAGE_KEYS.CURRENT_GAME` and `STORAGE_KEYS.LEADERBOARD`, two distinct keys. */
  datatype Key = CurrentGame | LeaderboardKey

  datatype Value = GameJson(game: GameStorage) | ResultsJson(results: seq<GameResult>) | Corrupt

  type Store = map<Key, Value>

  /** Key `k` is bound to the same value, or unbound, in both stores. */
  predicate SameAt(st: Store, st': Store, k: Key) {
    (k in st <==> k in st') && (k in st ==> st[k] == st'[k])
  }

  /** Newest first: timestamps never increase along the list. */
  predicate SortedDesc(rs: seq<GameResult>) {
    forall i, j :: 0 <= i < j < |rs| ==> rs[i].timestamp >= rs[j].timestamp
  }

  /**
   No document sits under the other key's name, and a stored leaderboard is newest
   first. Every write of the hook keeps this.
   */
  predicate Valid(st: Store) {
    && (CurrentGame in st ==> !st[CurrentGame].ResultsJson?)
    && (LeaderboardKey in st ==> !st[LeaderboardKey].GameJson?)
    && (LeaderboardKey in st && st[LeaderboardKey].ResultsJson? ==>
          SortedDesc(st[LeaderboardKey].results))
  }

  /**
   Where a stable insertion puts an entry with timestamp `t`: in front of the first
   entry strictly older than `t`, or at the end.
   */
  function InsertionPoint(rs: seq<GameResult>, t: int): (k: nat)
    ensures k <= |rs|
  {
    if |rs| == 0 || rs[0].timestamp < t then 0
    else 1 + InsertionPoint(rs[1..], t)
  }

  /**
   On a newest-first list the insertion point comes after every entry at least as
   recent as `t` and before every older one.
   */
  lemma {:induction false} InsertionPointSpec(rs: seq<GameResult>, t: int)
    requires SortedDesc(rs)
    ensures forall i :: 0 <= i < InsertionPoint(rs, t) ==> rs[i].timestamp >= t
    ensures forall i :: InsertionPoint(rs, t) <= i < |rs| ==> rs[i].timestamp < t
  {
    if |rs| > 0 && rs[0].timestamp >= t {
      InsertionPointSpec(rs[1..], t);
      assert forall i :: 1 <= i < |rs| ==> rs[i] == rs[1..][i - 1];
    }
  }

  /** When no entry is older than `t`, the insertion point is the end of the list. */
  lemma {:induction false} InsertionPointAtEnd(rs: seq<GameResult>, t: int)
    requires forall i :: 0 <= i < |rs| ==> rs[i].timestamp >= t
    ensures InsertionPoint(rs, t) == |rs|
  {
    if |rs| > 0 {
      assert forall i :: 0 <= i < |rs[1..]| ==> rs[1..][i] == rs[i + 1];
      InsertionPointAtEnd(rs[1..], t);
    }
  }

  /** Putting `r` at a position that respects the order keeps the list sorted. */
  lemma SpliceKeepsSorted(rs: seq<GameResult>, k: nat, r: GameResult)
    requires SortedDesc(rs) && k <= |rs|
    requires forall i :: 0 <= i < k ==> rs[i].timestamp >= r.timestamp
    requires forall i :: k <= i < |rs| ==> rs[i].timestamp < r.timestamp
    ensures SortedDesc(rs[..k] + [r] + rs[k..])
  {
    var out := rs[..k] + [r] + rs[k..];
    forall i, j | 0 <= i < j < |out|
      ensures out[i].timestamp >= out[j].timestamp
    {
      SpliceAt(rs, k, r, i);
      SpliceAt(rs, k, r, j);
    }
  }

  /** Indexing into `rs` with `r` spliced in at `k`. */
  lemma SpliceAt(rs: seq<GameResult>, k: nat, r: GameResult, i: nat)
    requires k <= |rs| && i <= |rs|
    ensures (rs[..k] + [r] + rs[k..])[i] == (if i < k then rs[i] else if i == k then r else rs[i - 1])
  {
  }

  /** Removing the spliced entry again gives back `rs`; nothing else was added. */
  lemma SpliceContents(rs: seq<GameResult>, k: nat, r: GameResult)
    requires k <= |rs|
    ensures var out := rs[..k] + [r] + rs[k..];
      && multiset(out) == multiset(rs) + multiset{r}
      && out[k] == r && out[..k] + out[k + 1..] == rs
  {
    var out := rs[..k] + [r] + rs[k..];
    assert rs == rs[..k] + rs[k..];
    assert out[..k] == rs[..k];
    assert out[k + 1..] == rs[k..];
  }

  /** `out` is `rs` with `r` added at `k`, and every entry after `k` is older than `r`. */
  predicate StableAt(rs: seq<GameResult>, r: GameResult, out: seq<GameResult>, k: nat) {
    && k < |out| && out[k] == r && out[..k] + out[k + 1..] == rs
    && forall i :: k < i < |out| ==> out[i].timestamp < r.timestamp
  }

  /**
   `out` is `rs` with `r` added somewhere: the old entries keep their order and every
   entry after `r` is strictly older, so `r` follows all entries at least as recent.
   */
  predicate StableInsertion(rs: seq<GameResult>, r: GameResult, out: seq<GameResult>) {
    exists k :: 0 <= k < |out| && StableAt(rs, r, out, k)
  }

  /** Stable insertion of `r` into a newest-first list. */
  function InsertByTime(rs: seq<GameResult>, r: GameResult): seq<GameResult> {
    var k := InsertionPoint(rs, r.timestamp);
    rs[..k] + [r] + rs[k..]
  }

  /** Inserting into a newest-first list keeps it newest first and adds exactly `r`. */
  lemma InsertByTimeSpec(rs: seq<GameResult>, r: GameResult)
    requires SortedDesc(rs)
    ensures SortedDesc(InsertByTime(rs, r))
    ensures multiset(InsertByTime(rs, r)) == multiset(rs) + multiset{r}
    ensures |InsertByTime(rs, r)| == |rs| + 1
  {
    var k := InsertionPoint(rs, r.timestamp);
    InsertionPointSpec(rs, r.timestamp);
    SpliceKeepsSorted(rs, k, r);
    SpliceContents(rs, k, r);
  }

  /**
   Inserting into a newest-first list is stable: the old entries keep their order and
   `r` follows every entry at least as recent as it.
   */
  lemma InsertIsStable(rs: seq<GameResult>, r: GameResult)
    requires SortedDesc(rs)
    ensures StableInsertion(rs, r, InsertByTime(rs, r))
  {
    var k := InsertionPoint(rs, r.timestamp);
    InsertionPointSpec(rs, r.timestamp);
    SpliceContents(rs, k, r);
    var out := rs[..k] + [r] + rs[k..];
    forall i | k < i < |out|
      ensures out[i].timestamp < r.timestamp
    {
      SpliceAt(rs, k, r, i);
    }
    assert StableAt(rs, r, out, k);
  }

  /**
   The stable descending sort `sort((a, b) => b.timestamp - a.timestamp)`, as an
   insertion sort that inserts the entries from the back of the list.
   */
  function SortByTime(rs: seq<GameResult>): seq<GameResult> {
    if |rs| == 0 then []
    else InsertByTime(SortByTime(rs[..|rs| - 1]), rs[|rs| - 1])
  }

  /** The sort yields a newest-first permutation of its input. */
  lemma {:induction false} SortByTimeSpec(rs: seq<GameResult>)
    ensures SortedDesc(SortByTime(rs))
    ensures multiset(SortByTime(rs)) == multiset(rs)
    ensures |SortByTime(rs)| == |rs|
  {
    if |rs| > 0 {
      var n := |rs| - 1;
      SortByTimeSpec(rs[..n]);
      InsertByTimeSpec(SortByTime(rs[..n]), rs[n]);
      LastSplit(rs);
    }
  }

  /** A non-empty list is its front followed by its last entry, as a multiset. */
  lemma LastSplit(rs: seq<GameResult>)
    requires |rs| > 0
    ensures multiset(rs) == multiset(rs[..|rs| - 1]) + multiset{rs[|rs| - 1]}
  {
    assert rs == rs[..|rs| - 1] + [rs[|rs| - 1]];
  }

  /** `saveGameState`: overwrites the snapshot; a failed write changes nothing. */
  function SaveGameState(st: Store, data: GameStorage, fault: bool): (st': Store)
    ensures fault ==> st' == st
    ensures !fault ==> CurrentGame in st' && st'[CurrentGame] == GameJson(data)
    ensures SameAt(st, st', LeaderboardKey)
    ensures Valid(st) ==> Valid(st')
  {
    if fault then st else st[CurrentGame := GameJson(data)]
  }

  /**
   `loadGameState`: the stored snapshot, or None when the read fails, the key is
   absent or the text does not parse.
   */
  function LoadGameState(st: Store, fault: bool): (r: Option<GameStorage>)
    ensures r.Some? <==> !fault && CurrentGame in st && st[CurrentGame].GameJson?
    ensures r.Some? ==> st[CurrentGame] == GameJson(r.value)
  {
    if fault || CurrentGame !in st then None
    else
      match st[CurrentGame]
      case GameJson(g) => Some(g)
      case _ => None
  }

  /** `clearGameState`: removes the snapshot; a failed remove changes nothing. */
  function ClearGameState(st: Store, fault: bool): (st': Store)
    ensures fault ==> st' == st
    ensures !fault ==> CurrentGame !in st'
    ensures SameAt(st, st', LeaderboardKey)
    ensures Valid(st) ==> Valid(st')
  {
    if fault then st else st - {CurrentGame}
  }

  /**
   `getLeaderboard`: the stored list, or the empty list when the read fails, the key
   is absent or the text does not parse.
   */
  function GetLeaderboard(st: Store, fault: bool): (rs: seq<GameResult>)
    ensures !fault && LeaderboardKey in st && st[LeaderboardKey].ResultsJson? ==>
      rs == st[LeaderboardKey].results
    ensures fault || LeaderboardKey !in st || !st[LeaderboardKey].ResultsJson? ==> rs == []
    ensures Valid(st) ==> SortedDesc(rs)
  {
    if fault || LeaderboardKey !in st then []
    else
      match st[LeaderboardKey]
      case ResultsJson(rs) => rs
      case _ => []
  }

  /**
   `saveToLeaderboard`: reads the list (through `getLeaderboard`, so a failed or
   unparsable read gives the empty list), appends `r`, sorts newest first and writes
   the list back. A failed write changes nothing.
   */
  function SaveToLeaderboard(st: Store, r: GameResult, readFault: bool, writeFault: bool): (st': Store)
    ensures writeFault ==> st' == st
    ensures !writeFault ==>
      && LeaderboardKey in st' && st'[LeaderboardKey].ResultsJson?
      && SortedDesc(st'[LeaderboardKey].results)
      && multiset(st'[LeaderboardKey].results) == multiset(GetLeaderboard(st, readFault)) + multiset{r}
      && |st'[LeaderboardKey].results| == |GetLeaderboard(st, readFault)| + 1
    ensures SameAt(st, st', CurrentGame)
    ensures Valid(st) ==> Valid(st')
  {
    var stored := GetLeaderboard(st, readFault);
    var appended := stored + [r];
    var sorted := SortByTime(appended);
    assert SortedDesc(sorted) && multiset(sorted) == multiset(stored) + multiset{r}
      && |sorted| == |stored| + 1 by {
      SortByTimeSpec(appended);
    }
    if writeFault then st else st[LeaderboardKey := ResultsJson(sorted)]
  }

  /** A snapshot written and read back without a fault is the snapshot itself. */
  lemma SaveThenLoad(st: Store, data: GameStorage)
    ensures LoadGameState(SaveGameState(st, data, false), false) == Some(data)
  {
  }

  /** After a successful clear, loading finds no snapshot. */
  lemma ClearThenLoad(st: Store, fault: bool)
    ensures LoadGameState(ClearGameState(st, false), fault) == None
  {
  }

  /** The list `getLeaderboard` sees after a successful save holds `r` and is sorted. */
  lemma SaveThenGetLeaderboard(st: Store, r: GameResult, readFault: bool)
    ensures var rs := GetLeaderboard(SaveToLeaderboard(st, r, readFault, false), false);
      && SortedDesc(rs)
      && multiset(rs) == multiset(GetLeaderboard(st, readFault)) + multiset{r}
      && r in rs
  {
    var rs := GetLeaderboard(SaveToLeaderboard(st, r, readFault, false), false);
    assert r in multiset(rs);
  }

  /**
   A list that is unreadable (absent, corrupt, or the read fails) is replaced by the
   one-entry list `[r]`: earlier entries are lost.
   */
  lemma UnreadableLeaderboardIsReplaced(st: Store, r: GameResult, readFault: bool)
    requires readFault || LeaderboardKey !in st || st[LeaderboardKey] == Corrupt
    ensures SaveToLeaderboard(st, r, readFault, false)[LeaderboardKey] == ResultsJson([r])
  {
    assert SortByTime([r]) == InsertByTime(SortByTime([]), r);
    assert InsertByTime([], r) == [r];
  }

  /** Sorting a list that is already newest first leaves it as it is (stability). */
  lemma {:induction false} SortSortedIsIdentity(rs: seq<GameResult>)
    requires SortedDesc(rs)
    ensures SortByTime(rs) == rs
  {
    if |rs| > 0 {
      var n := |rs| - 1;
      SortSortedIsIdentity(rs[..n]);
      InsertOldest(rs[..n], rs[n]);
      assert rs[..n] + [rs[n]] == rs;
    }
  }

  /** An entry no newer than any in the list goes to the end. */
  lemma InsertOldest(rs: seq<GameResult>, r: GameResult)
    requires forall i :: 0 <= i < |rs| ==> rs[i].timestamp >= r.timestamp
    ensures InsertByTime(rs, r) == rs + [r]
  {
    InsertionPointAtEnd(rs, r.timestamp);
    assert rs[..|rs|] == rs;
  }

  /** An entry newer than the head of the list goes to the front. */
  lemma InsertNewest(rs: seq<GameResult>, r: GameResult)
    requires |rs| == 0 || rs[0].timestamp < r.timestamp
    ensures InsertByTime(rs, r) == [r] + rs
  {
    var k := InsertionPoint(rs, r.timestamp);
    assert k == 0;
    assert rs[..k] == [] && rs[k..] == rs;
  }

  /**
   On a sorted stored list, saving inserts `r` after every entry at least as recent and
   leaves the relative order of the old entries alone.
   */
  lemma SaveInsertsIntoSortedList(st: Store, r: GameResult, readFault: bool)
    requires Valid(st)
    ensures SaveToLeaderboard(st, r, readFault, false)[LeaderboardKey]
      == ResultsJson(InsertByTime(GetLeaderboard(st, readFault), r))
  {
    var stored := GetLeaderboard(st, readFault);
    var appended := stored + [r];
    assert appended[..|appended| - 1] == stored;
    SortSortedIsIdentity(stored);
  }

  /** Saving onto a store that holds only the sorted list `rs` holds only the insertion. */
  lemma SaveOntoList(rs: seq<GameResult>, r: GameResult)
    requires SortedDesc(rs)
    ensures SaveToLeaderboard(map[LeaderboardKey := ResultsJson(rs)], r, false, false)
      == map[LeaderboardKey := ResultsJson(InsertByTime(rs, r))]
  {
    var st := map[LeaderboardKey := ResultsJson(rs)];
    SaveInsertsIntoSortedList(st, r, false);
  }
}
