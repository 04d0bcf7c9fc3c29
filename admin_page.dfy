/**
 * app/admin/page.tsx: the moderator screen's data.
 *
 * fetchData builds the puzzle list and the user list (one entry per user document and
 * per puzzle creator without one, each with the number of puzzles it created); the two
 * delete handlers update that local state after the Firestore deletes succeed. The
 * queries and deletes themselves are inputs: the fetched documents, and whether a
 * delete went through.
 */
module AdminPage {
  import opened Wrappers
  import Seqs
  import CreatePage

  datatype PuzzleItem = PuzzleItem(
    id: string, title: string, imageUrl: string, creatorId: string, creatorName: string,
    solved: bool, solvedBy: Option<string>, answerType: string)

  /** A document of the "users" collection: its id and its `displayName` field. */
  datatype UserDoc = UserDoc(id: string, displayName: Option<string>)

  datatype UserSummary = UserSummary(uid: string, name: string, puzzleCount: nat)

  // ---------------------------------------------------------------------------
  // isAdmin and the admin's own row

  /** `user && adminUid && user.uid === adminUid`: signed in, an admin uid configured (non-empty), and equal. */
  predicate IsAdmin(signedIn: Option<string>, adminUid: Option<string>)
  {
    signedIn.Some? && adminUid.Some? && adminUid.value != "" && signedIn.value == adminUid.value
  }

  /** A user row offers the delete button unless its uid is the admin uid. */
  predicate OffersDelete(rowUid: string, adminUid: Option<string>)
  {
    !(adminUid.Some? && rowUid == adminUid.value)
  }

  /** Only the configured admin gets the screen, and the admin can never delete their own row. */
  lemma {:induction false} AdminCannotDeleteSelf(signedIn: Option<string>, adminUid: Option<string>)
    ensures IsAdmin(signedIn, adminUid) ==> signedIn.Some? && !OffersDelete(signedIn.value, adminUid)
    ensures signedIn.None? || adminUid.None? || adminUid == Some("") ==> !IsAdmin(signedIn, adminUid)
  {
  }

  // ---------------------------------------------------------------------------
  // Specification of fetchData

  /** The number of puzzles created by `uid`. */
  function CountOf(puzzles: seq<PuzzleItem>, uid: string): (n: nat)
    ensures n <= |puzzles|
  {
    if puzzles == [] then 0
    else CountOf(puzzles[..|puzzles| - 1], uid) + (if puzzles[|puzzles| - 1].creatorId == uid then 1 else 0)
  }

  /** `puzzleCountMap.get(uid) || 0` */
  function CountIn(m: map<string, nat>, uid: string): nat
  {
    if uid in m then m[uid] else 0
  }

  function DocIds(docs: seq<UserDoc>): (r: seq<string>)
    ensures |r| == |docs| && forall i :: 0 <= i < |docs| ==> r[i] == docs[i].id
  {
    if docs == [] then [] else DocIds(docs[..|docs| - 1]) + [docs[|docs| - 1].id]
  }

  function CreatorIds(puzzles: seq<PuzzleItem>): (r: seq<string>)
    ensures |r| == |puzzles| && forall i :: 0 <= i < |puzzles| ==> r[i] == puzzles[i].creatorId
  {
    if puzzles == [] then [] else CreatorIds(puzzles[..|puzzles| - 1]) + [puzzles[|puzzles| - 1].creatorId]
  }

  function Uids(users: seq<UserSummary>): (r: seq<string>)
    ensures |r| == |users| && forall i :: 0 <= i < |users| ==> r[i] == users[i].uid
  {
    if users == [] then [] else Uids(users[..|users| - 1]) + [users[|users| - 1].uid]
  }

  /** The name the last user document with this id gives (a later `userMap.set` overwrites). */
  function LastDocName(docs: seq<UserDoc>, uid: string): string
    requires uid in DocIds(docs)
  {
    var last := docs[|docs| - 1];
    if last.id == uid then CreatePage.CreatorName(last.displayName)
    else
      assert DocIds(docs) == DocIds(docs[..|docs| - 1]) + [last.id];
      LastDocName(docs[..|docs| - 1], uid)
  }

  /** The creator name on the first puzzle by `uid` (later puzzles find the entry already there). */
  function FirstCreatorName(puzzles: seq<PuzzleItem>, uid: string): string
    requires uid in CreatorIds(puzzles)
  {
    var init := puzzles[..|puzzles| - 1];
    assert CreatorIds(puzzles) == CreatorIds(init) + [puzzles[|puzzles| - 1].creatorId];
    if uid in CreatorIds(init) then FirstCreatorName(init, uid) else puzzles[|puzzles| - 1].creatorName
  }

  /** The uids of the user list in order: user documents first, then creators, each at its first occurrence. */
  function UserOrder(docs: seq<UserDoc>, puzzles: seq<PuzzleItem>): seq<string>
  {
    Seqs.Dedup(DocIds(docs) + CreatorIds(puzzles))
  }

  predicate HasUser(users: seq<UserSummary>, uid: string)
  {
    exists i :: 0 <= i < |users| && users[i].uid == uid
  }

  predicate DistinctUids(users: seq<UserSummary>)
  {
    forall i, j :: 0 <= i < j < |users| ==> users[i].uid != users[j].uid
  }

  /**
   * The screen's state is consistent: one entry per uid, every puzzle's creator has an
   * entry, and every entry's count is the number of listed puzzles it created.
   */
  ghost predicate Consistent(puzzles: seq<PuzzleItem>, users: seq<UserSummary>)
  {
    && DistinctUids(users)
    && (forall i :: 0 <= i < |puzzles| ==> HasUser(users, puzzles[i].creatorId))
    && (forall i :: 0 <= i < |users| ==> users[i].puzzleCount == CountOf(puzzles, users[i].uid))
  }

  function SumCounts(users: seq<UserSummary>): nat
  {
    if users == [] then 0 else SumCounts(users[..|users| - 1]) + users[|users| - 1].puzzleCount
  }

  // ---------------------------------------------------------------------------
  // The counts add up

  /** How often `x` occurs in `s`. */
  function Occurrences(s: seq<string>, x: string): nat
  {
    if s == [] then 0 else Occurrences(s[..|s| - 1], x) + (if s[|s| - 1] == x then 1 else 0)
  }

  lemma {:induction false} OccursOnce(s: seq<string>, x: string)
    requires Seqs.Distinct(s) && x in s
    ensures Occurrences(s, x) == 1
  {
    var init := s[..|s| - 1];
    assert s == init + [s[|s| - 1]];
    assert Seqs.Distinct(init);
    if s[|s| - 1] == x {
      NotOccurs(init, x);
    } else {
      OccursOnce(init, x);
    }
  }

  lemma {:induction false} NotOccurs(s: seq<string>, x: string)
    requires x !in s
    ensures Occurrences(s, x) == 0
  {
    if s != [] {
      NotOccurs(s[..|s| - 1], x);
    }
  }

  /** Sum over the uids in `uids` of the puzzles each created. */
  function SumCountOf(puzzles: seq<PuzzleItem>, uids: seq<string>): nat
  {
    if uids == [] then 0 else SumCountOf(puzzles, uids[..|uids| - 1]) + CountOf(puzzles, uids[|uids| - 1])
  }

  lemma {:induction false} SumCountOfAddPuzzle(puzzles: seq<PuzzleItem>, uids: seq<string>)
    requires puzzles != []
    ensures SumCountOf(puzzles, uids)
      == SumCountOf(puzzles[..|puzzles| - 1], uids) + Occurrences(uids, puzzles[|puzzles| - 1].creatorId)
  {
    if uids != [] {
      SumCountOfAddPuzzle(puzzles, uids[..|uids| - 1]);
    }
  }

  /** Over distinct uids covering every creator, the counts add up to the number of puzzles. */
  lemma {:induction false} CountsAddUp(puzzles: seq<PuzzleItem>, uids: seq<string>)
    requires Seqs.Distinct(uids)
    requires forall i :: 0 <= i < |puzzles| ==> puzzles[i].creatorId in uids
    ensures SumCountOf(puzzles, uids) == |puzzles|
  {
    if puzzles == [] {
      ZeroCounts(uids);
    } else {
      var init := puzzles[..|puzzles| - 1];
      CountsAddUp(init, uids);
      SumCountOfAddPuzzle(puzzles, uids);
      OccursOnce(uids, puzzles[|puzzles| - 1].creatorId);
    }
  }

  lemma {:induction false} ZeroCounts(uids: seq<string>)
    ensures SumCountOf([], uids) == 0
  {
    if uids != [] {
      ZeroCounts(uids[..|uids| - 1]);
    }
  }

  lemma {:induction false} SumCountsAsCountOf(puzzles: seq<PuzzleItem>, users: seq<UserSummary>)
    requires forall i :: 0 <= i < |users| ==> users[i].puzzleCount == CountOf(puzzles, users[i].uid)
    ensures SumCounts(users) == SumCountOf(puzzles, Uids(users))
  {
    if users != [] {
      SumCountsAsCountOf(puzzles, users[..|users| - 1]);
    }
  }

  /** In a consistent state the counts of all user entries add up to the number of puzzles listed. */
  lemma {:induction false} ConsistentCountsAddUp(puzzles: seq<PuzzleItem>, users: seq<UserSummary>)
    requires Consistent(puzzles, users)
    ensures SumCounts(users) == |puzzles|
  {
    var uids := Uids(users);
    assert Seqs.Distinct(uids);
    forall i | 0 <= i < |puzzles| ensures puzzles[i].creatorId in uids {
      var j :| 0 <= j < |users| && users[j].uid == puzzles[i].creatorId;
      assert uids[j] == puzzles[i].creatorId;
    }
    CountsAddUp(puzzles, uids);
    SumCountsAsCountOf(puzzles, users);
  }

  // ---------------------------------------------------------------------------
  // fetchData

  lemma {:induction false} CountOfSnoc(puzzles: seq<PuzzleItem>, p: PuzzleItem, uid: string)
    ensures CountOf(puzzles + [p], uid) == CountOf(puzzles, uid) + (if p.creatorId == uid then 1 else 0)
  {
    assert (puzzles + [p])[..|puzzles|] == puzzles;
  }

  /** `puzzleCountMap` after the first forEach: one `set(uid, (get(uid) || 0) + 1)` per puzzle. */
  function CountMap(puzzles: seq<PuzzleItem>): map<string, nat>
  {
    if puzzles == [] then map[]
    else
      var m := CountMap(puzzles[..|puzzles| - 1]);
      var uid := puzzles[|puzzles| - 1].creatorId;
      m[uid := CountIn(m, uid) + 1]
  }

  /** The Map counts, for every uid, the puzzles it created (absent means 0). */
  lemma {:induction false} CountMapSpec(puzzles: seq<PuzzleItem>)
    ensures forall u :: CountIn(CountMap(puzzles), u) == CountOf(puzzles, u)
  {
    if puzzles != [] {
      CountMapSpec(puzzles[..|puzzles| - 1]);
    }
  }

  lemma {:induction false} CountMapStep(puzzles: seq<PuzzleItem>, i: nat)
    requires i < |puzzles|
    ensures CountMap(puzzles[..i + 1]) == CountMap(puzzles[..i])[puzzles[i].creatorId := CountIn(CountMap(puzzles[..i]), puzzles[i].creatorId) + 1]
  {
    Seqs.PrefixSnoc(puzzles, i);
    assert (puzzles[..i] + [puzzles[i]])[..i] == puzzles[..i];
  }

  /** The first forEach: list every puzzle and count it for its creator in the Map. */
  method CountByCreator(puzzlesSnap: seq<PuzzleItem>) returns (puzzleList: seq<PuzzleItem>, countMap: map<string, nat>)
    ensures puzzleList == puzzlesSnap
    ensures countMap == CountMap(puzzlesSnap)
  {
    puzzleList := [];
    countMap := map[];
    for i := 0 to |puzzlesSnap|
      invariant puzzleList == puzzlesSnap[..i]
      invariant countMap == CountMap(puzzlesSnap[..i])
    {
      var p := puzzlesSnap[i];
      CountMapStep(puzzlesSnap, i);
      puzzleList := puzzleList + [p];
      countMap := countMap[p.creatorId := CountIn(countMap, p.creatorId) + 1];
    }
    assert puzzlesSnap[..|puzzlesSnap|] == puzzlesSnap;
  }

  /** The Map after the second forEach: `userMap.set` for each user document in turn. */
  function DocEntries(docs: seq<UserDoc>, countMap: map<string, nat>): map<string, UserSummary>
  {
    if docs == [] then map[]
    else
      var d := docs[|docs| - 1];
      DocEntries(docs[..|docs| - 1], countMap)[d.id := UserSummary(d.id, CreatePage.CreatorName(d.displayName), CountIn(countMap, d.id))]
  }

  /** The Map after the third forEach: creators not in the Map yet are added, in puzzle order. */
  function CreatorEntries(puzzles: seq<PuzzleItem>, countMap: map<string, nat>, m: map<string, UserSummary>): map<string, UserSummary>
  {
    if puzzles == [] then m
    else
      var m' := CreatorEntries(puzzles[..|puzzles| - 1], countMap, m);
      var p := puzzles[|puzzles| - 1];
      if p.creatorId in m' then m'
      else m'[p.creatorId := UserSummary(p.creatorId, p.creatorName, CountIn(countMap, p.creatorId))]
  }

  /** The second forEach leaves one entry per user document id, named and counted from its last document. */
  lemma {:induction false} DocEntriesSpec(docs: seq<UserDoc>, countMap: map<string, nat>)
    ensures forall x :: x in DocEntries(docs, countMap) <==> x in DocIds(docs)
    ensures forall x :: x in DocIds(docs) ==>
      DocEntries(docs, countMap)[x] == UserSummary(x, LastDocName(docs, x), CountIn(countMap, x))
  {
    if docs != [] {
      var init := docs[..|docs| - 1];
      var d := docs[|docs| - 1];
      DocEntriesSpec(init, countMap);
      assert DocIds(docs) == DocIds(init) + [d.id];
    }
  }

  /**
   * The third forEach keeps every entry already there and adds, for each other creator,
   * an entry named after its first puzzle.
   */
  lemma {:induction false} CreatorEntriesSpec(puzzles: seq<PuzzleItem>, countMap: map<string, nat>, m: map<string, UserSummary>)
    ensures forall x :: x in CreatorEntries(puzzles, countMap, m) <==> x in m || x in CreatorIds(puzzles)
    ensures forall x :: x in m ==> CreatorEntries(puzzles, countMap, m)[x] == m[x]
    ensures forall x :: x !in m && x in CreatorIds(puzzles) ==>
      CreatorEntries(puzzles, countMap, m)[x] == UserSummary(x, FirstCreatorName(puzzles, x), CountIn(countMap, x))
  {
    if puzzles != [] {
      var init := puzzles[..|puzzles| - 1];
      var p := puzzles[|puzzles| - 1];
      CreatorEntriesSpec(init, countMap, m);
      assert CreatorIds(puzzles) == CreatorIds(init) + [p.creatorId];
    }
  }

  /** One step of the second forEach: the next document's entry, and whether its id is new. */
  lemma {:induction false} DocStep(docs: seq<UserDoc>, j: nat, countMap: map<string, nat>)
    requires j < |docs|
    ensures DocEntries(docs[..j + 1], countMap)
      == DocEntries(docs[..j], countMap)[docs[j].id := UserSummary(docs[j].id, CreatePage.CreatorName(docs[j].displayName), CountIn(countMap, docs[j].id))]
    ensures Seqs.Dedup(DocIds(docs[..j + 1]))
      == if docs[j].id in DocEntries(docs[..j], countMap) then Seqs.Dedup(DocIds(docs[..j]))
         else Seqs.Dedup(DocIds(docs[..j])) + [docs[j].id]
  {
    var prefix := docs[..j];
    var d := docs[j];
    Seqs.PrefixSnoc(docs, j);
    assert (prefix + [d])[..j] == prefix;
    assert DocIds(prefix + [d]) == DocIds(prefix) + [d.id];
    Seqs.DedupSnoc(DocIds(prefix), d.id);
    DocEntriesSpec(prefix, countMap);
  }

  /** The second forEach. */
  method EntriesFromDocs(usersSnap: seq<UserDoc>, countMap: map<string, nat>)
    returns (userMap: map<string, UserSummary>, order: seq<string>)
    ensures userMap == DocEntries(usersSnap, countMap)
    ensures order == Seqs.Dedup(DocIds(usersSnap))
  {
    userMap := map[];
    order := [];
    for j := 0 to |usersSnap|
      invariant userMap == DocEntries(usersSnap[..j], countMap)
      invariant order == Seqs.Dedup(DocIds(usersSnap[..j]))
    {
      var d := usersSnap[j];
      DocStep(usersSnap, j, countMap);
      if d.id !in userMap {
        order := order + [d.id];
      }
      userMap := userMap[d.id := UserSummary(d.id, CreatePage.CreatorName(d.displayName), CountIn(countMap, d.id))];
    }
    assert usersSnap[..|usersSnap|] == usersSnap;
  }

  /** One step of the third forEach: the next puzzle's creator is added if new. */
  lemma {:induction false} CreatorStep(puzzles: seq<PuzzleItem>, k: nat, countMap: map<string, nat>,
                                       docIds: seq<string>, m: map<string, UserSummary>)
    requires k < |puzzles|
    requires forall x :: x in m <==> x in docIds
    ensures var p := puzzles[k];
      var before := CreatorEntries(puzzles[..k], countMap, m);
      && CreatorEntries(puzzles[..k + 1], countMap, m)
         == (if p.creatorId in before then before
             else before[p.creatorId := UserSummary(p.creatorId, p.creatorName, CountIn(countMap, p.creatorId))])
      && Seqs.Dedup(docIds + CreatorIds(puzzles[..k + 1]))
         == if p.creatorId in before then Seqs.Dedup(docIds + CreatorIds(puzzles[..k]))
            else Seqs.Dedup(docIds + CreatorIds(puzzles[..k])) + [p.creatorId]
  {
    var prefix := puzzles[..k];
    var p := puzzles[k];
    Seqs.PrefixSnoc(puzzles, k);
    assert (prefix + [p])[..k] == prefix;
    assert CreatorIds(prefix + [p]) == CreatorIds(prefix) + [p.creatorId];
    assert docIds + CreatorIds(prefix + [p]) == (docIds + CreatorIds(prefix)) + [p.creatorId];
    Seqs.DedupSnoc(docIds + CreatorIds(prefix), p.creatorId);
    CreatorEntriesSpec(prefix, countMap, m);
  }

  /** The third forEach. */
  method AddCreators(puzzleList: seq<PuzzleItem>, countMap: map<string, nat>, ghost docIds: seq<string>,
                     userMap0: map<string, UserSummary>, order0: seq<string>)
    returns (userMap: map<string, UserSummary>, order: seq<string>)
    requires order0 == Seqs.Dedup(docIds)
    requires forall x :: x in userMap0 <==> x in docIds
    ensures userMap == CreatorEntries(puzzleList, countMap, userMap0)
    ensures order == Seqs.Dedup(docIds + CreatorIds(puzzleList))
  {
    userMap, order := userMap0, order0;
    assert docIds + CreatorIds(puzzleList[..0]) == docIds;
    for k := 0 to |puzzleList|
      invariant userMap == CreatorEntries(puzzleList[..k], countMap, userMap0)
      invariant order == Seqs.Dedup(docIds + CreatorIds(puzzleList[..k]))
    {
      var p := puzzleList[k];
      CreatorStep(puzzleList, k, countMap, docIds, userMap0);
      if p.creatorId !in userMap {
        order := order + [p.creatorId];
        userMap := userMap[p.creatorId := UserSummary(p.creatorId, p.creatorName, CountIn(countMap, p.creatorId))];
      }
    }
    assert puzzleList[..|puzzleList|] == puzzleList;
  }

  /** The Map after all three forEach loops. */
  function EntryMap(puzzles: seq<PuzzleItem>, docs: seq<UserDoc>): map<string, UserSummary>
  {
    CreatorEntries(puzzles, CountMap(puzzles), DocEntries(docs, CountMap(puzzles)))
  }

  /**
   * The final Map has an entry for exactly the document ids and the creators, keyed by
   * its own uid, counting that uid's puzzles; a document's entry is named by its last
   * document, any other creator's by their first puzzle.
   */
  lemma {:induction false} EntryMapSpec(puzzles: seq<PuzzleItem>, docs: seq<UserDoc>)
    ensures forall x :: x in EntryMap(puzzles, docs) <==> x in UserOrder(docs, puzzles)
    ensures forall x :: x in EntryMap(puzzles, docs) ==>
      EntryMap(puzzles, docs)[x].uid == x && EntryMap(puzzles, docs)[x].puzzleCount == CountOf(puzzles, x)
    ensures forall x :: x in DocIds(docs) ==> x in EntryMap(puzzles, docs) && EntryMap(puzzles, docs)[x].name == LastDocName(docs, x)
    ensures forall x :: x !in DocIds(docs) && x in CreatorIds(puzzles) ==>
      x in EntryMap(puzzles, docs) && EntryMap(puzzles, docs)[x].name == FirstCreatorName(puzzles, x)
  {
    var counts := CountMap(puzzles);
    CountMapSpec(puzzles);
    DocEntriesSpec(docs, counts);
    CreatorEntriesSpec(puzzles, counts, DocEntries(docs, counts));
    forall x ensures x in UserOrder(docs, puzzles) <==> x in DocIds(docs) || x in CreatorIds(puzzles) {
      assert x in UserOrder(docs, puzzles) <==> x in DocIds(docs) + CreatorIds(puzzles);
    }
  }

  /** `Array.from(userMap.values())`: the entries in the Map's first-insertion order. */
  function UserList(puzzles: seq<PuzzleItem>, docs: seq<UserDoc>): seq<UserSummary>
  {
    EntryMapSpec(puzzles, docs);
    var order := UserOrder(docs, puzzles);
    var m := EntryMap(puzzles, docs);
    seq(|order|, i requires 0 <= i < |order| => m[order[i]])
  }

  /**
   * fetchData's user list: one entry per user document and per creator without one, in
   * first-insertion order of the Map; each entry's count is the number of fetched puzzles
   * it created (0 if none); a user document's entry is named by its displayName or "匿名",
   * a creator's entry by its first puzzle, and a creator's puzzle never overwrites a
   * document's entry; the whole is consistent, so the counts add up to the puzzles.
   */
  lemma {:induction false} UserListSpec(puzzles: seq<PuzzleItem>, docs: seq<UserDoc>)
    ensures var users := UserList(puzzles, docs);
      && Uids(users) == UserOrder(docs, puzzles)
      && (forall i :: 0 <= i < |users| ==> users[i].puzzleCount == CountOf(puzzles, users[i].uid))
      && (forall i :: 0 <= i < |users| && users[i].uid in DocIds(docs) ==>
            users[i].name == LastDocName(docs, users[i].uid))
      && (forall i :: 0 <= i < |users| && users[i].uid !in DocIds(docs) && users[i].uid in CreatorIds(puzzles) ==>
            users[i].name == FirstCreatorName(puzzles, users[i].uid))
    ensures Consistent(puzzles, UserList(puzzles, docs))
    ensures SumCounts(UserList(puzzles, docs)) == |puzzles|
  {
    var users := UserList(puzzles, docs);
    EntryMapSpec(puzzles, docs);
    assert Uids(users) == UserOrder(docs, puzzles);
    FetchDataConsistent(puzzles, users, DocIds(docs));
    ConsistentCountsAddUp(puzzles, users);
  }

  /** fetchData: the three forEach loops, then the Map's values in insertion order. */
  method FetchData(puzzlesSnap: seq<PuzzleItem>, usersSnap: seq<UserDoc>)
    returns (puzzleList: seq<PuzzleItem>, users: seq<UserSummary>)
    ensures puzzleList == puzzlesSnap
    ensures users == UserList(puzzlesSnap, usersSnap)
  {
    var countMap;
    puzzleList, countMap := CountByCreator(puzzlesSnap);
    var docMap, docOrder := EntriesFromDocs(usersSnap, countMap);
    DocEntriesSpec(usersSnap, countMap);
    var userMap, order := AddCreators(puzzleList, countMap, DocIds(usersSnap), docMap, docOrder);
    EntryMapSpec(puzzleList, usersSnap);
    // Array.from(userMap.values())
    users := seq(|order|, i requires 0 <= i < |order| => userMap[order[i]]);
  }

  lemma {:induction false} CreatorHasUser(puzzles: seq<PuzzleItem>, users: seq<UserSummary>, docIds: seq<string>, i: nat)
    requires Uids(users) == Seqs.Dedup(docIds + CreatorIds(puzzles))
    requires i < |puzzles|
    ensures HasUser(users, puzzles[i].creatorId)
  {
    var all := docIds + CreatorIds(puzzles);
    assert all[|docIds| + i] == puzzles[i].creatorId;
    var order := Uids(users);
    assert puzzles[i].creatorId in order;
    var j :| 0 <= j < |order| && order[j] == puzzles[i].creatorId;
    assert users[j].uid == puzzles[i].creatorId;
  }

  lemma {:induction false} FetchDataConsistent(puzzles: seq<PuzzleItem>, users: seq<UserSummary>, docIds: seq<string>)
    requires Uids(users) == Seqs.Dedup(docIds + CreatorIds(puzzles))
    requires forall i :: 0 <= i < |users| ==> users[i].puzzleCount == CountOf(puzzles, users[i].uid)
    ensures Consistent(puzzles, users)
  {
    forall i | 0 <= i < |puzzles| ensures HasUser(users, puzzles[i].creatorId) {
      CreatorHasUser(puzzles, users, docIds, i);
    }
    assert Seqs.Distinct(Uids(users));
  }

  // ---------------------------------------------------------------------------
  // Deleting one puzzle

  /** `puzzles.find((p) => p.id === puzzleId)`: the first puzzle with that id. */
  function FindPuzzle(puzzles: seq<PuzzleItem>, puzzleId: string): (r: Option<PuzzleItem>)
    ensures r.Some? ==> r.value in puzzles && r.value.id == puzzleId
    ensures r.Some? ==>
      exists i :: 0 <= i < |puzzles| && puzzles[i] == r.value && (forall j :: 0 <= j < i ==> puzzles[j].id != puzzleId)
    ensures r.None? ==> forall i :: 0 <= i < |puzzles| ==> puzzles[i].id != puzzleId
  {
    if puzzles == [] then None
    else
      var init := puzzles[..|puzzles| - 1];
      assert puzzles == init + [puzzles[|puzzles| - 1]];
      match FindPuzzle(init, puzzleId)
      case Some(p) => Some(p)
      case None => if puzzles[|puzzles| - 1].id == puzzleId then Some(puzzles[|puzzles| - 1]) else None
  }

  /** `prev.filter((p) => p.id !== puzzleId)` */
  function WithoutPuzzle(puzzles: seq<PuzzleItem>, puzzleId: string): seq<PuzzleItem>
  {
    Seqs.Filter(puzzles, (p: PuzzleItem) => p.id != puzzleId)
  }

  /** `prev.map((u) => u.uid === uid ? { ...u, puzzleCount: Math.max(0, u.puzzleCount - 1) } : u)` */
  function DecrementCount(users: seq<UserSummary>, uid: string): (r: seq<UserSummary>)
    ensures |r| == |users|
    ensures forall i :: 0 <= i < |users| ==> r[i].uid == users[i].uid && r[i].name == users[i].name
    ensures forall i :: 0 <= i < |users| ==>
      r[i].puzzleCount == if users[i].uid == uid then (if users[i].puzzleCount > 0 then users[i].puzzleCount - 1 else 0)
                          else users[i].puzzleCount
  {
    if users == [] then []
    else
      var u := users[|users| - 1];
      DecrementCount(users[..|users| - 1], uid)
      + [if u.uid == uid then u.(puzzleCount := if u.puzzleCount > 0 then u.puzzleCount - 1 else 0) else u]
  }

  datatype AdminLists = AdminLists(puzzles: seq<PuzzleItem>, users: seq<UserSummary>)

  /** handleDeletePuzzle's state update once the document is deleted. */
  function AfterDeletePuzzle(s: AdminLists, puzzleId: string): AdminLists
  {
    AdminLists(
      WithoutPuzzle(s.puzzles, puzzleId),
      match FindPuzzle(s.puzzles, puzzleId)
      case None => s.users
      case Some(p) => DecrementCount(s.users, p.creatorId))
  }

  predicate DistinctIds(puzzles: seq<PuzzleItem>)
  {
    forall i, j :: 0 <= i < j < |puzzles| ==> puzzles[i].id != puzzles[j].id
  }

  lemma {:induction false} CountWithoutPuzzle(puzzles: seq<PuzzleItem>, puzzleId: string, uid: string)
    requires DistinctIds(puzzles)
    ensures var f := FindPuzzle(puzzles, puzzleId);
      CountOf(WithoutPuzzle(puzzles, puzzleId), uid) + (if f.Some? && f.value.creatorId == uid then 1 else 0)
        == CountOf(puzzles, uid)
  {
    if puzzles != [] {
      var init := puzzles[..|puzzles| - 1];
      var last := puzzles[|puzzles| - 1];
      assert DistinctIds(init);
      CountWithoutPuzzle(init, puzzleId, uid);
      var w := WithoutPuzzle(init, puzzleId);
      if last.id != puzzleId {
        assert WithoutPuzzle(puzzles, puzzleId) == w + [last];
        CountOfSnoc(w, last, uid);
      } else {
        assert WithoutPuzzle(puzzles, puzzleId) == w + [];
        assert w + [] == w;
        FindNone(puzzles);
      }
    }
  }

  /** With distinct ids, the last puzzle's id is not found among the earlier ones. */
  lemma {:induction false} FindNone(puzzles: seq<PuzzleItem>)
    requires puzzles != [] && DistinctIds(puzzles)
    ensures FindPuzzle(puzzles[..|puzzles| - 1], puzzles[|puzzles| - 1].id).None?
  {
  }

  /**
   * Deleting a puzzle removes exactly the puzzles with that id, keeps the others in their
   * order and with their multiplicity, keeps every user entry and its name, and changes
   * only the count of the deleted puzzle's creator: by one, and never below zero.
   */
  lemma {:induction false} DeletePuzzleSpec(s: AdminLists, puzzleId: string)
    ensures var t := AfterDeletePuzzle(s, puzzleId);
      && (forall i :: 0 <= i < |t.puzzles| ==> t.puzzles[i] in s.puzzles && t.puzzles[i].id != puzzleId)
      && (forall i :: 0 <= i < |s.puzzles| && s.puzzles[i].id != puzzleId ==> s.puzzles[i] in t.puzzles)
      && Uids(t.users) == Uids(s.users)
      && (forall i :: 0 <= i < |s.users| ==> t.users[i].name == s.users[i].name)
      && (forall i :: 0 <= i < |s.users| && s.users[i].puzzleCount != t.users[i].puzzleCount ==>
            FindPuzzle(s.puzzles, puzzleId).Some? && s.users[i].uid == FindPuzzle(s.puzzles, puzzleId).value.creatorId
            && t.users[i].puzzleCount == s.users[i].puzzleCount - 1)
      && (forall i ::
            (0 <= i < |s.users| && FindPuzzle(s.puzzles, puzzleId).Some?
             && s.users[i].uid == FindPuzzle(s.puzzles, puzzleId).value.creatorId) ==>
            t.users[i].puzzleCount == if s.users[i].puzzleCount > 0 then s.users[i].puzzleCount - 1 else 0)
  {
    var t := AfterDeletePuzzle(s, puzzleId);
    assert |t.users| == |s.users|;
  }

  /** The puzzles that stay keep their order and their multiplicity. */
  lemma {:induction false} DeletePuzzleKeepsOrder(s: AdminLists, puzzleId: string)
    ensures var t := AfterDeletePuzzle(s, puzzleId);
      && (forall k :: 0 <= k <= |s.puzzles| ==>
            t.puzzles == WithoutPuzzle(s.puzzles[..k], puzzleId) + WithoutPuzzle(s.puzzles[k..], puzzleId))
      && (forall p :: multiset(t.puzzles)[p] == if p.id != puzzleId then multiset(s.puzzles)[p] else 0)
  {
    var t := AfterDeletePuzzle(s, puzzleId);
    forall k | 0 <= k <= |s.puzzles|
      ensures t.puzzles == WithoutPuzzle(s.puzzles[..k], puzzleId) + WithoutPuzzle(s.puzzles[k..], puzzleId)
    {
      Seqs.FilterSplit(s.puzzles, (p: PuzzleItem) => p.id != puzzleId, k);
    }
    forall p ensures multiset(t.puzzles)[p] == if p.id != puzzleId then multiset(s.puzzles)[p] else 0 {
      Seqs.FilterCount(s.puzzles, (p: PuzzleItem) => p.id != puzzleId, p);
    }
  }

  /** In a consistent state with distinct puzzle ids, deleting a puzzle keeps the state consistent. */
  lemma {:induction false} DeletePuzzleKeepsConsistent(s: AdminLists, puzzleId: string)
    requires Consistent(s.puzzles, s.users) && DistinctIds(s.puzzles)
    ensures Consistent(AfterDeletePuzzle(s, puzzleId).puzzles, AfterDeletePuzzle(s, puzzleId).users)
  {
    var t := AfterDeletePuzzle(s, puzzleId);
    DeletePuzzleSpec(s, puzzleId);
    DeletePuzzleCounts(s, puzzleId);
    forall i | 0 <= i < |t.puzzles| ensures HasUser(t.users, t.puzzles[i].creatorId) {
      var k :| 0 <= k < |s.puzzles| && s.puzzles[k] == t.puzzles[i];
      var j :| 0 <= j < |s.users| && s.users[j].uid == s.puzzles[k].creatorId;
      assert Uids(t.users)[j] == Uids(s.users)[j];
    }
    forall i, j | 0 <= i < j < |t.users| ensures t.users[i].uid != t.users[j].uid {
      assert Uids(t.users)[i] == Uids(s.users)[i] && Uids(t.users)[j] == Uids(s.users)[j];
    }
  }

  lemma {:induction false} DeletePuzzleCounts(s: AdminLists, puzzleId: string)
    requires Consistent(s.puzzles, s.users) && DistinctIds(s.puzzles)
    ensures var t := AfterDeletePuzzle(s, puzzleId);
      forall i :: 0 <= i < |t.users| ==> t.users[i].puzzleCount == CountOf(t.puzzles, t.users[i].uid)
  {
    var t := AfterDeletePuzzle(s, puzzleId);
    forall i | 0 <= i < |t.users| ensures t.users[i].puzzleCount == CountOf(t.puzzles, t.users[i].uid) {
      CountWithoutPuzzle(s.puzzles, puzzleId, s.users[i].uid);
    }
  }

  // ---------------------------------------------------------------------------
  // Deleting a user and everything they posted

  /** `prev.filter((p) => p.creatorId !== uid)` */
  function WithoutCreator(puzzles: seq<PuzzleItem>, uid: string): seq<PuzzleItem>
  {
    Seqs.Filter(puzzles, (p: PuzzleItem) => p.creatorId != uid)
  }

  /** `prev.filter((u) => u.uid !== uid)` */
  function WithoutUser(users: seq<UserSummary>, uid: string): seq<UserSummary>
  {
    Seqs.Filter(users, (u: UserSummary) => u.uid != uid)
  }

  /** handleDeleteUser's state update once the puzzles are deleted. */
  function AfterDeleteUser(s: AdminLists, uid: string): AdminLists
  {
    AdminLists(WithoutCreator(s.puzzles, uid), WithoutUser(s.users, uid))
  }

  lemma {:induction false} CountWithoutCreator(puzzles: seq<PuzzleItem>, uid: string, other: string)
    requires other != uid
    ensures CountOf(WithoutCreator(puzzles, uid), other) == CountOf(puzzles, other)
  {
    if puzzles != [] {
      var init := puzzles[..|puzzles| - 1];
      var last := puzzles[|puzzles| - 1];
      CountWithoutCreator(init, uid, other);
      var w := WithoutCreator(init, uid);
      if last.creatorId != uid {
        assert WithoutCreator(puzzles, uid) == w + [last];
        CountOfSnoc(w, last, other);
      } else {
        assert WithoutCreator(puzzles, uid) == w + [];
        assert w + [] == w;
      }
    }
  }

  lemma {:induction false} FilterKeepsDistinctUids(users: seq<UserSummary>, uid: string)
    requires DistinctUids(users)
    ensures DistinctUids(WithoutUser(users, uid))
  {
    if users != [] {
      var init := users[..|users| - 1];
      var last := users[|users| - 1];
      assert DistinctUids(init);
      FilterKeepsDistinctUids(init, uid);
      var w := WithoutUser(init, uid);
      forall i | 0 <= i < |w| ensures w[i].uid != last.uid {
        var k :| 0 <= k < |init| && init[k] == w[i];
        assert users[k].uid != users[|users| - 1].uid;
      }
    }
  }

  /**
   * Deleting a user removes every puzzle they created and their entry, and nothing else:
   * the remaining puzzles and users keep their order and multiplicity. A consistent state
   * stays consistent.
   */
  lemma {:induction false} DeleteUserSpec(s: AdminLists, uid: string)
    ensures var t := AfterDeleteUser(s, uid);
      && (forall i :: 0 <= i < |t.puzzles| ==> t.puzzles[i] in s.puzzles && t.puzzles[i].creatorId != uid)
      && (forall i :: 0 <= i < |s.puzzles| && s.puzzles[i].creatorId != uid ==> s.puzzles[i] in t.puzzles)
      && (forall i :: 0 <= i < |t.users| ==> t.users[i] in s.users && t.users[i].uid != uid)
      && (forall i :: 0 <= i < |s.users| && s.users[i].uid != uid ==> s.users[i] in t.users)
    ensures Consistent(s.puzzles, s.users) ==>
      Consistent(AfterDeleteUser(s, uid).puzzles, AfterDeleteUser(s, uid).users)
  {
    var t := AfterDeleteUser(s, uid);
    if Consistent(s.puzzles, s.users) {
      FilterKeepsDistinctUids(s.users, uid);
      forall i | 0 <= i < |t.users| ensures t.users[i].puzzleCount == CountOf(t.puzzles, t.users[i].uid) {
        CountWithoutCreator(s.puzzles, uid, t.users[i].uid);
      }
      forall i | 0 <= i < |t.puzzles| ensures HasUser(t.users, t.puzzles[i].creatorId) {
        var k :| 0 <= k < |s.puzzles| && s.puzzles[k] == t.puzzles[i];
        var j :| 0 <= j < |s.users| && s.users[j].uid == s.puzzles[k].creatorId;
        assert s.users[j] in t.users;
      }
    }
  }

  /** The puzzles and users that stay keep their order and their multiplicity. */
  lemma {:induction false} DeleteUserKeepsOrder(s: AdminLists, uid: string)
    ensures var t := AfterDeleteUser(s, uid);
      && (forall k :: 0 <= k <= |s.puzzles| ==>
            t.puzzles == WithoutCreator(s.puzzles[..k], uid) + WithoutCreator(s.puzzles[k..], uid))
      && (forall p :: multiset(t.puzzles)[p] == if p.creatorId != uid then multiset(s.puzzles)[p] else 0)
      && (forall k :: 0 <= k <= |s.users| ==>
            t.users == WithoutUser(s.users[..k], uid) + WithoutUser(s.users[k..], uid))
      && (forall u :: multiset(t.users)[u] == if u.uid != uid then multiset(s.users)[u] else 0)
  {
    var t := AfterDeleteUser(s, uid);
    forall k | 0 <= k <= |s.puzzles|
      ensures t.puzzles == WithoutCreator(s.puzzles[..k], uid) + WithoutCreator(s.puzzles[k..], uid)
    {
      Seqs.FilterSplit(s.puzzles, (p: PuzzleItem) => p.creatorId != uid, k);
    }
    forall p ensures multiset(t.puzzles)[p] == if p.creatorId != uid then multiset(s.puzzles)[p] else 0 {
      Seqs.FilterCount(s.puzzles, (p: PuzzleItem) => p.creatorId != uid, p);
    }
    forall k | 0 <= k <= |s.users|
      ensures t.users == WithoutUser(s.users[..k], uid) + WithoutUser(s.users[k..], uid)
    {
      Seqs.FilterSplit(s.users, (u: UserSummary) => u.uid != uid, k);
    }
    forall u ensures multiset(t.users)[u] == if u.uid != uid then multiset(s.users)[u] else 0 {
      Seqs.FilterCount(s.users, (u: UserSummary) => u.uid != uid, u);
    }
  }

  // ---------------------------------------------------------------------------
  // The screen's state

  class AdminView {
    var puzzles: seq<PuzzleItem>
    var users: seq<UserSummary>

    constructor ()
      ensures puzzles == [] && users == []
    {
      puzzles := [];
      users := [];
    }

    /** fetchData: both queries must succeed before anything is set (a failure is only logged). */
    method Load(puzzlesSnap: Option<seq<PuzzleItem>>, usersSnap: Option<seq<UserDoc>>)
      modifies this
      ensures puzzlesSnap.None? || usersSnap.None? ==> puzzles == old(puzzles) && users == old(users)
      ensures puzzlesSnap.Some? && usersSnap.Some? ==>
        puzzles == puzzlesSnap.value && users == UserList(puzzlesSnap.value, usersSnap.value)
        && Consistent(puzzles, users)
    {
      if puzzlesSnap.None? || usersSnap.None? {
        return;
      }
      puzzles, users := FetchData(puzzlesSnap.value, usersSnap.value);
      UserListSpec(puzzles, usersSnap.value);
    }

    /** handleDeletePuzzle: the local lists change only when the Firestore delete succeeded. */
    method DeletePuzzle(puzzleId: string, deleted: bool)
      modifies this
      ensures deleted ==> AdminLists(puzzles, users) == AfterDeletePuzzle(AdminLists(old(puzzles), old(users)), puzzleId)
      ensures !deleted ==> puzzles == old(puzzles) && users == old(users)
      ensures deleted && old(Consistent(puzzles, users)) && DistinctIds(old(puzzles)) ==> Consistent(puzzles, users)
    {
      if !deleted {
        return;
      }
      if Consistent(puzzles, users) && DistinctIds(puzzles) {
        DeletePuzzleKeepsConsistent(AdminLists(puzzles, users), puzzleId);
      }
      var deletedPuzzle := FindPuzzle(puzzles, puzzleId);
      puzzles := WithoutPuzzle(puzzles, puzzleId);
      if deletedPuzzle.Some? {
        users := DecrementCount(users, deletedPuzzle.value.creatorId);
      }
    }

    /** handleDeleteUser: the local lists change only when all the user's puzzles were deleted. */
    method DeleteUser(uid: string, deleted: bool)
      modifies this
      ensures deleted ==> AdminLists(puzzles, users) == AfterDeleteUser(AdminLists(old(puzzles), old(users)), uid)
      ensures !deleted ==> puzzles == old(puzzles) && users == old(users)
      ensures deleted && old(Consistent(puzzles, users)) ==> Consistent(puzzles, users)
    {
      if !deleted {
        return;
      }
      DeleteUserSpec(AdminLists(puzzles, users), uid);
      puzzles := WithoutCreator(puzzles, uid);
      users := WithoutUser(users, uid);
    }
  }
}
