/** The read-only endpoints of endpoints/main.py that carry logic of their
    own: the per-folder counts of `get_user_folders`, the filename search of
    `search_documents`, and the merged chat history of `get_chats_by_chatname`.
    The database queries are their inputs: the rows they return, in the
    order they return them. */
module Listings {
  import opened Wrappers
  import opened TextOps
  import opened Records

  const NoFoldersDetail: string := "No folders found for this user"
  const NoDocumentsDetail: string := "No documents found with the specified name"

  // ---------------------------------------------------------------------------
  // get_user_folders

  /** One `(foldername, timestamp)` row of a user's documents. */
  datatype FolderRow = FolderRow(foldername: Option<string>, timestamp: int)

  /** One entry of the answer: a folder, how many documents it holds, and the
      timestamp of the first of them the query returned. */
  datatype FolderCount = FolderCount(foldername: string, count: nat, timestamp: int)

  /** `if folder:`: the row names a folder (None and "" do not). */
  predicate InFolder(row: FolderRow) {
    row.foldername.Some? && row.foldername.value != ""
  }

  /** The folders named by the rows, each once, in the order they first appear. */
  function FoldersInOrder(rows: seq<FolderRow>): (r: seq<string>)
    decreases |rows|
  {
    if rows == [] then []
    else
      var seen := FoldersInOrder(rows[..|rows| - 1]);
      var last := rows[|rows| - 1];
      if InFolder(last) && last.foldername.value !in seen then seen + [last.foldername.value] else seen
  }

  /** How many rows name folder `f`. */
  function CountOf(rows: seq<FolderRow>, f: string): nat
    decreases |rows|
  {
    if rows == [] then 0
    else
      var last := rows[|rows| - 1];
      CountOf(rows[..|rows| - 1], f) + if InFolder(last) && last.foldername.value == f then 1 else 0
  }

  /** The timestamp of the first row naming folder `f`. */
  function FirstTimestamp(rows: seq<FolderRow>, f: string): int
    requires f in FoldersInOrder(rows)
    decreases |rows|
  {
    var init := rows[..|rows| - 1];
    if f in FoldersInOrder(init) then FirstTimestamp(init, f) else rows[|rows| - 1].timestamp
  }

  /** The entries of `folders`, each with its count and first timestamp. */
  function Entries(rows: seq<FolderRow>, folders: seq<string>): (r: seq<FolderCount>)
    requires forall f :: f in folders ==> f in FoldersInOrder(rows)
    ensures |r| == |folders|
    ensures forall i :: 0 <= i < |r| ==> r[i].foldername == folders[i]
  {
    seq(|folders|, i requires 0 <= i < |folders| =>
      FolderCount(folders[i], CountOf(rows, folders[i]), FirstTimestamp(rows, folders[i])))
  }

  /** What `get_user_folders` answers for a user's rows. */
  function FolderCounts(rows: seq<FolderRow>): Result<seq<FolderCount>, HttpError> {
    if rows == [] then Failure(NotFound(NoFoldersDetail))
    else Success(Entries(rows, FoldersInOrder(rows)))
  }

  /** The count and first timestamp kept for a folder while scanning. */
  datatype Tally = Tally(count: nat, timestamp: int)

  /** `get_user_folders`: one pass over the rows, counting into a dictionary
      that remembers the order of first insertion, then one entry per key. */
  method GetUserFolders(rows: seq<FolderRow>) returns (r: Result<seq<FolderCount>, HttpError>)
    ensures r == FolderCounts(rows)
  {
    if rows == [] {
      return Failure(NotFound(NoFoldersDetail));
    }
    var folderCount: map<string, Tally> := map[];
    var order: seq<string> := [];
    var i := 0;
    while i < |rows|
      invariant 0 <= i <= |rows|
      invariant order == FoldersInOrder(rows[..i])
      invariant folderCount.Keys == set f | f in order
      invariant forall f :: f in order ==>
        folderCount[f] == Tally(CountOf(rows[..i], f), FirstTimestamp(rows[..i], f))
    {
      var row := rows[i];
      ghost var prev, prevCount := rows[..i], folderCount;
      ghost var next := rows[..i + 1];
      assert next[..|next| - 1] == prev && next[|next| - 1] == row;
      if row.foldername.Some? && row.foldername.value != "" {
        var folder := row.foldername.value;
        if folder in folderCount {
          folderCount := folderCount[folder := folderCount[folder].(count := folderCount[folder].count + 1)];
        } else {
          folderCount := folderCount[folder := Tally(1, row.timestamp)];
          order := order + [folder];
        }
      }
      forall f | f in order
        ensures folderCount[f] == Tally(CountOf(next, f), FirstTimestamp(next, f))
      {
        assert CountOf(next, f) == CountOf(prev, f) + if InFolder(row) && row.foldername.value == f then 1 else 0;
        if f in FoldersInOrder(prev) {
          assert FirstTimestamp(next, f) == FirstTimestamp(prev, f);
          assert folderCount[f].timestamp == prevCount[f].timestamp;
          assert folderCount[f].count == CountOf(next, f);
        } else {
          assert FirstTimestamp(next, f) == row.timestamp;
          FoldersListed(prev, f);
        }
      }
      i := i + 1;
    }
    assert rows[..i] == rows;
    var folderCounts := seq(|order|, k requires 0 <= k < |order| =>
      FolderCount(order[k], folderCount[order[k]].count, folderCount[order[k]].timestamp));
    assert folderCounts == Entries(rows, order);
    r := Success(folderCounts);
  }

  predicate NoDuplicates(s: seq<string>) {
    forall i, j :: 0 <= i < j < |s| ==> s[i] != s[j]
  }

  /** Each folder is listed once. */
  lemma {:induction false} FoldersDistinct(rows: seq<FolderRow>)
    ensures NoDuplicates(FoldersInOrder(rows))
    decreases |rows|
  {
    if rows != [] {
      var seen := FoldersInOrder(rows[..|rows| - 1]);
      FoldersDistinct(rows[..|rows| - 1]);
      var fs := FoldersInOrder(rows);
      if fs != seen {
        var x := rows[|rows| - 1].foldername.value;
        assert fs == seen + [x] && x !in seen;
        forall i, j | 0 <= i < j < |fs|
          ensures fs[i] != fs[j]
        {
          if j == |seen| {
            assert fs[i] == seen[i] && seen[i] in seen;
          } else {
            assert fs[i] == seen[i] && fs[j] == seen[j];
          }
        }
      }
    }
  }

  /** A folder is listed exactly when some row names it, and then its count is positive. */
  lemma {:induction false} FoldersListed(rows: seq<FolderRow>, f: string)
    ensures f in FoldersInOrder(rows) <==> exists i :: 0 <= i < |rows| && InFolder(rows[i]) && rows[i].foldername.value == f
    ensures f in FoldersInOrder(rows) <==> CountOf(rows, f) > 0
    decreases |rows|
  {
    if rows != [] {
      var init := rows[..|rows| - 1];
      FoldersListed(init, f);
      if exists i :: 0 <= i < |init| && InFolder(init[i]) && init[i].foldername.value == f {
        var i :| 0 <= i < |init| && InFolder(init[i]) && init[i].foldername.value == f;
        assert rows[i] == init[i];
      }
      if exists i :: 0 <= i < |rows| && InFolder(rows[i]) && rows[i].foldername.value == f {
        var i :| 0 <= i < |rows| && InFolder(rows[i]) && rows[i].foldername.value == f;
        if i < |init| {
          assert init[i] == rows[i];
        }
      }
    }
  }

  /** The timestamp kept for a folder is that of the first row naming it. */
  lemma {:induction false} FirstTimestampIsFirst(rows: seq<FolderRow>, f: string) returns (i: nat)
    requires f in FoldersInOrder(rows)
    ensures i < |rows| && InFolder(rows[i]) && rows[i].foldername.value == f
    ensures rows[i].timestamp == FirstTimestamp(rows, f)
    ensures forall j :: 0 <= j < i ==> !(InFolder(rows[j]) && rows[j].foldername.value == f)
    decreases |rows|
  {
    var init := rows[..|rows| - 1];
    if f in FoldersInOrder(init) {
      i := FirstTimestampIsFirst(init, f);
    } else {
      i := |rows| - 1;
      FoldersListed(init, f);
      forall j | 0 <= j < i
        ensures !(InFolder(rows[j]) && rows[j].foldername.value == f)
      {
        assert rows[j] == init[j];
      }
    }
  }

  /** Counts add up over consecutive batches of rows. */
  lemma {:induction false} CountOfAppend(rows: seq<FolderRow>, more: seq<FolderRow>, f: string)
    ensures CountOf(rows + more, f) == CountOf(rows, f) + CountOf(more, f)
    decreases |more|
  {
    if more != [] {
      assert (rows + more)[..|rows + more| - 1] == rows + more[..|more| - 1];
      CountOfAppend(rows, more[..|more| - 1], f);
    } else {
      assert rows + more == rows;
    }
  }

  /** Folders seen first stay first: more rows only add folders at the end. */
  lemma {:induction false} FoldersAppend(rows: seq<FolderRow>, more: seq<FolderRow>)
    ensures FoldersInOrder(rows) <= FoldersInOrder(rows + more)
    decreases |more|
  {
    if more != [] {
      assert (rows + more)[..|rows + more| - 1] == rows + more[..|more| - 1];
      FoldersAppend(rows, more[..|more| - 1]);
    } else {
      assert rows + more == rows;
    }
  }

  /** Only a user without documents gets the 404; a user whose documents are
      in no folder gets an empty list. */
  lemma NoFolderIsEmptyList(rows: seq<FolderRow>)
    requires rows != []
    requires forall i :: 0 <= i < |rows| ==> !InFolder(rows[i])
    ensures FolderCounts(rows) == Success([])
  {
    if FoldersInOrder(rows) != [] {
      FoldersListed(rows, FoldersInOrder(rows)[0]);
    }
  }

  // ---------------------------------------------------------------------------
  // search_documents

  /** One `(document_url, timestamp)` row of a user's documents. */
  datatype UrlRow = UrlRow(documentUrl: string, timestamp: int)

  /** The search key of the row's URL equals the searched name, ignoring case. */
  predicate NameMatches(row: UrlRow, name: string) {
    Lower(FileKey(row.documentUrl)) == Lower(name)
  }

  /** The rows `keep` accepts, in their order. */
  function Filter(rows: seq<UrlRow>, keep: UrlRow -> bool): seq<UrlRow>
    decreases |rows|
  {
    if rows == [] then []
    else
      var init := Filter(rows[..|rows| - 1], keep);
      var last := rows[|rows| - 1];
      if keep(last) then init + [last] else init
  }

  lemma {:induction false} FilterMembers(rows: seq<UrlRow>, keep: UrlRow -> bool, x: UrlRow)
    ensures x in Filter(rows, keep) <==> x in rows && keep(x)
    decreases |rows|
  {
    if rows != [] {
      var init := rows[..|rows| - 1];
      FilterMembers(init, keep, x);
      assert rows == init + [rows[|rows| - 1]];
    }
  }

  lemma {:induction false} FilterAppend(rows: seq<UrlRow>, more: seq<UrlRow>, keep: UrlRow -> bool)
    ensures Filter(rows + more, keep) == Filter(rows, keep) + Filter(more, keep)
    decreases |more|
  {
    if more != [] {
      var all := rows + more;
      var init := more[..|more| - 1];
      assert all[..|all| - 1] == rows + init;
      assert all[|all| - 1] == more[|more| - 1];
      FilterAppend(rows, init, keep);
    } else {
      assert rows + more == rows;
    }
  }

  lemma FilterNext(rows: seq<UrlRow>, i: nat, keep: UrlRow -> bool)
    requires i < |rows|
    ensures Filter(rows[..i + 1], keep) == Filter(rows[..i], keep) + if keep(rows[i]) then [rows[i]] else []
  {
    assert rows[..i + 1][..i] == rows[..i];
    assert rows[..i + 1][i] == rows[i];
  }

  lemma FilterSingle(row: UrlRow, keep: UrlRow -> bool)
    requires keep(row)
    ensures Filter([row], keep) == [row]
  {
    assert [row][..0] == [];
  }

  /** The rows whose key matches, in query order. */
  function Matching(rows: seq<UrlRow>, name: string): seq<UrlRow>
    decreases |rows|
  {
    if rows == [] then []
    else
      var init := Matching(rows[..|rows| - 1], name);
      var last := rows[|rows| - 1];
      if NameMatches(last, name) then init + [last] else init
  }

  lemma {:induction false} MatchingIsFilter(rows: seq<UrlRow>, name: string)
    ensures Matching(rows, name) == Filter(rows, row => NameMatches(row, name))
    decreases |rows|
  {
    if rows != [] {
      MatchingIsFilter(rows[..|rows| - 1], name);
    }
  }

  /** The matches are exactly the rows whose name matches. */
  lemma MatchingMembers(rows: seq<UrlRow>, name: string, x: UrlRow)
    ensures x in Matching(rows, name) <==> x in rows && NameMatches(x, name)
  {
    MatchingIsFilter(rows, name);
    FilterMembers(rows, row => NameMatches(row, name), x);
  }

  /** The scan of the rows meets them one at a time. */
  lemma MatchingNext(rows: seq<UrlRow>, i: nat, name: string)
    requires i < |rows|
    ensures Matching(rows[..i + 1], name) ==
      Matching(rows[..i], name) + if NameMatches(rows[i], name) then [rows[i]] else []
  {
    MatchingIsFilter(rows[..i + 1], name);
    MatchingIsFilter(rows[..i], name);
    FilterNext(rows, i, row => NameMatches(row, name));
  }

  /** A single matching row is found. */
  lemma MatchingSingle(row: UrlRow, name: string)
    requires NameMatches(row, name)
    ensures Matching([row], name) == [row]
  {
    MatchingIsFilter([row], name);
    FilterSingle(row, r => NameMatches(r, name));
  }

  /** The same step, with the row's test already decided. */
  lemma MatchingStep(rows: seq<UrlRow>, i: nat, name: string, hit: bool)
    requires i < |rows| && hit == NameMatches(rows[i], name)
    ensures Matching(rows[..i + 1], name) == Matching(rows[..i], name) + if hit then [rows[i]] else []
  {
    MatchingNext(rows, i, name);
  }

  function SearchResult(rows: seq<UrlRow>, name: string): Result<seq<UrlRow>, HttpError> {
    var m := Matching(rows, name);
    if m == [] then Failure(NotFound(NoDocumentsDetail)) else Success(m)
  }

  /** `search_documents`: scan the user's documents, keep those whose file
      name matches, and answer 404 when none does. */
  method SearchDocuments(name: string, rows: seq<UrlRow>) returns (r: Result<seq<UrlRow>, HttpError>)
    ensures r == SearchResult(rows, name)
  {
    var matchingDocs: seq<UrlRow> := [];
    var i := 0;
    while i < |rows|
      invariant 0 <= i <= |rows|
      invariant matchingDocs == Matching(rows[..i], name)
    {
      var actualFilename := FileKey(rows[i].documentUrl);
      var hit := Lower(actualFilename) == Lower(name);
      MatchingStep(rows, i, name, hit);
      if hit {
        matchingDocs := matchingDocs + [rows[i]];
      }
      i := i + 1;
    }
    assert rows[..i] == rows;
    if matchingDocs == [] {
      return Failure(NotFound(NoDocumentsDetail));
    }
    return Success(matchingDocs);
  }

  /** Matching keeps query order: the matches of two batches of rows are the
      matches of the first followed by those of the second. */
  lemma MatchingAppend(rows: seq<UrlRow>, more: seq<UrlRow>, name: string)
    ensures Matching(rows + more, name) == Matching(rows, name) + Matching(more, name)
  {
    MatchingIsFilter(rows + more, name);
    MatchingIsFilter(rows, name);
    MatchingIsFilter(more, name);
    FilterAppend(rows, more, row => NameMatches(row, name));
  }

  /** A document uploaded as `stem.ext` is found by searching for `stem` in any case. */
  lemma UploadFoundByStem(bucket: string, region: string, fileId: string, stem: string, ext: string, timestamp: int, name: string)
    requires '/' !in fileId
    requires '/' !in stem && '_' !in stem && '.' !in stem
    requires '/' !in ext && '_' !in ext
    requires Lower(name) == Lower(stem)
    ensures var row := UrlRow(DocumentUrl(bucket, region, ObjectKey(fileId, stem + "." + ext)), timestamp);
      SearchResult([row], name) == Success([row])
  {
    var row := UrlRow(DocumentUrl(bucket, region, ObjectKey(fileId, stem + "." + ext)), timestamp);
    FileKeyOfStoredUpload(bucket, region, fileId, stem, ext);
    MatchingSingle(row, name);
  }

  // ---------------------------------------------------------------------------
  // get_chats_by_chatname

  /** An entry of a chat's history. */
  datatype HistoryItem =
    | DocumentItem(url: string, fileType: string, timestamp: int)
    | ChatItem(query: string, response: string, timestamp: int)

  /** The sort key `(timestamp, 0 if document else 1)`. */
  datatype SortKey = SortKey(timestamp: int, rank: nat)

  function KeyOf(x: HistoryItem): SortKey {
    SortKey(x.timestamp, if x.DocumentItem? then 0 else 1)
  }

  /** Lexicographic order on keys. */
  predicate KeyLe(a: SortKey, b: SortKey) {
    a.timestamp < b.timestamp || (a.timestamp == b.timestamp && a.rank <= b.rank)
  }

  predicate SortedByKey(s: seq<HistoryItem>) {
    forall i, j :: 0 <= i < j < |s| ==> KeyLe(KeyOf(s[i]), KeyOf(s[j]))
  }

  /** Insert `x` before the first element whose key is not below its own. */
  function Insert(x: HistoryItem, s: seq<HistoryItem>): seq<HistoryItem>
    decreases |s|
  {
    if s == [] then [x]
    else if KeyLe(KeyOf(x), KeyOf(s[0])) then [x] + s
    else [s[0]] + Insert(x, s[1..])
  }

  /** Insertion adds `x` and loses nothing. */
  lemma {:induction false} InsertPermutes(x: HistoryItem, s: seq<HistoryItem>)
    ensures multiset(Insert(x, s)) == multiset(s) + multiset{x}
    decreases |s|
  {
    if s != [] && !KeyLe(KeyOf(x), KeyOf(s[0])) {
      InsertPermutes(x, s[1..]);
      assert s == [s[0]] + s[1..];
    }
  }

  /** A bound below `x` and every element of `s` is a bound below every element of the insertion. */
  lemma InsertBounded(x: HistoryItem, s: seq<HistoryItem>, k: SortKey)
    requires KeyLe(k, KeyOf(x))
    requires forall i :: 0 <= i < |s| ==> KeyLe(k, KeyOf(s[i]))
    ensures forall i :: 0 <= i < |Insert(x, s)| ==> KeyLe(k, KeyOf(Insert(x, s)[i]))
  {
    var r := Insert(x, s);
    InsertPermutes(x, s);
    forall i | 0 <= i < |r|
      ensures KeyLe(k, KeyOf(r[i]))
    {
      assert r[i] in multiset(r);
      if r[i] != x {
        assert r[i] in multiset(s);
      }
    }
  }

  /** Inserting into a sorted sequence keeps it sorted. */
  lemma {:induction false} InsertSorted(x: HistoryItem, s: seq<HistoryItem>)
    requires SortedByKey(s)
    ensures SortedByKey(Insert(x, s))
    decreases |s|
  {
    if s != [] && !KeyLe(KeyOf(x), KeyOf(s[0])) {
      var rest := Insert(x, s[1..]);
      InsertSorted(x, s[1..]);
      InsertBounded(x, s[1..], KeyOf(s[0]));
      var r := [s[0]] + rest;
      forall i, j | 0 <= i < j < |r|
        ensures KeyLe(KeyOf(r[i]), KeyOf(r[j]))
      {
        if i > 0 {
          assert r[i] == rest[i - 1];
        }
        assert r[j] == rest[j - 1];
      }
    }
  }

  /** Python's `sorted(items, key=...)`: stable, by timestamp, documents first on ties. */
  function SortByKey(items: seq<HistoryItem>): (r: seq<HistoryItem>)
    ensures SortedByKey(r)
    ensures multiset(r) == multiset(items)
    decreases |items|
  {
    if items == [] then []
    else
      assert items == [items[0]] + items[1..];
      InsertSorted(items[0], SortByKey(items[1..]));
      InsertPermutes(items[0], SortByKey(items[1..]));
      Insert(items[0], SortByKey(items[1..]))
  }

  /** The items with key `k`, in order. */
  function WithKey(s: seq<HistoryItem>, k: SortKey): seq<HistoryItem>
    decreases |s|
  {
    if s == [] then [] else (if KeyOf(s[0]) == k then [s[0]] else []) + WithKey(s[1..], k)
  }

  lemma WithKeyCons(y: HistoryItem, t: seq<HistoryItem>, k: SortKey)
    ensures WithKey([y] + t, k) == (if KeyOf(y) == k then [y] else []) + WithKey(t, k)
  {
    assert ([y] + t)[0] == y && ([y] + t)[1..] == t;
  }

  lemma {:induction false} InsertWithKey(x: HistoryItem, s: seq<HistoryItem>, k: SortKey)
    ensures WithKey(Insert(x, s), k) == (if KeyOf(x) == k then [x] else []) + WithKey(s, k)
    decreases |s|
  {
    if s == [] {
      WithKeyCons(x, [], k);
    } else if KeyLe(KeyOf(x), KeyOf(s[0])) {
      WithKeyCons(x, s, k);
    } else {
      var rest := Insert(x, s[1..]);
      assert Insert(x, s) == [s[0]] + rest;
      assert s == [s[0]] + s[1..];
      InsertWithKey(x, s[1..], k);
      WithKeyCons(s[0], rest, k);
      WithKeyCons(s[0], s[1..], k);
      // x goes after s[0] only when their keys differ, so at most one of them has key k
      if KeyOf(s[0]) == k {
        assert KeyOf(x) != k;
        assert WithKey(rest, k) == WithKey(s[1..], k);
      } else {
        assert WithKey(Insert(x, s), k) == WithKey(rest, k);
        assert WithKey(s, k) == WithKey(s[1..], k);
      }
    }
  }

  /** The sort is stable: items with equal keys keep their relative order. */
  lemma {:induction false} SortStable(items: seq<HistoryItem>, k: SortKey)
    ensures WithKey(SortByKey(items), k) == WithKey(items, k)
    decreases |items|
  {
    if items != [] {
      SortStable(items[1..], k);
      InsertWithKey(items[0], SortByKey(items[1..]), k);
    }
  }

  function DocumentItems(docs: seq<DocumentRow>): (r: seq<HistoryItem>)
    ensures |r| == |docs|
    ensures forall i :: 0 <= i < |r| ==> r[i].DocumentItem? && r[i].timestamp == docs[i].timestamp
  {
    seq(|docs|, i requires 0 <= i < |docs| => DocumentItem(docs[i].documentUrl, docs[i].doctype, docs[i].timestamp))
  }

  function ChatItems(chats: seq<ChatRow>): (r: seq<HistoryItem>)
    ensures |r| == |chats|
    ensures forall i :: 0 <= i < |r| ==> r[i].ChatItem? && r[i].timestamp == chats[i].timestamp
  {
    seq(|chats|, i requires 0 <= i < |chats| => ChatItem(chats[i].query, chats[i].response, chats[i].timestamp))
  }

  /** What `get_chats_by_chatname` answers for a chat's rows. The 404 for a
      chat with neither chats nor documents is raised inside the `try` whose
      `except Exception` turns it into a 500. */
  function ChatHistory(chats: seq<ChatRow>, docs: seq<DocumentRow>): (r: Result<seq<HistoryItem>, HttpError>)
    ensures chats == [] && docs == [] ==> r == Failure(ServerError)
    ensures r.Success? ==> SortedByKey(r.value)
    ensures r.Success? ==> multiset(r.value) == multiset(DocumentItems(docs) + ChatItems(chats))
  {
    if chats == [] && docs == [] then Failure(ServerError)
    else Success(SortByKey(DocumentItems(docs) + ChatItems(chats)))
  }

  /** On equal timestamps documents come before chats. */
  lemma HistoryDocumentsFirst(chats: seq<ChatRow>, docs: seq<DocumentRow>, i: nat, j: nat)
    requires ChatHistory(chats, docs).Success?
    requires i < |ChatHistory(chats, docs).value| && j < |ChatHistory(chats, docs).value|
    requires ChatHistory(chats, docs).value[i].DocumentItem? && ChatHistory(chats, docs).value[j].ChatItem?
    requires ChatHistory(chats, docs).value[i].timestamp == ChatHistory(chats, docs).value[j].timestamp
    ensures i < j
  {
    if j <= i {
      assert false;
    }
  }

  /** Documents with one timestamp keep their query order, and so do chats. */
  lemma HistoryKeepsQueryOrder(chats: seq<ChatRow>, docs: seq<DocumentRow>, k: SortKey)
    requires ChatHistory(chats, docs).Success?
    ensures WithKey(ChatHistory(chats, docs).value, k) == WithKey(DocumentItems(docs) + ChatItems(chats), k)
  {
    SortStable(DocumentItems(docs) + ChatItems(chats), k);
  }
}
