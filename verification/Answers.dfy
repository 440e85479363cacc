// The error a client gets where the path is right and the write is refused all the same: it tells
// it to stop, or to send the cold instruction instead.
module Answers {
  import opened Base
  import opened NodeViews
  import opened Engine
  import opened Represent
  import opened MapModel
  import opened HotTheorems
  import opened DeleteProof
  import opened Runs
  import opened Shapes
  import opened Tokens
  import opened Orders
  import opened Markets
  import opened Books
  import opened Solvency
  import opened Admission

  // What a hot walk finds on the search path.
  lemma OnTheSpot(s: State, key: Key)
    requires Valid(s) && AllShaped(s.nodes) && s.height > 0
    ensures LeafOf(s, key).TLeaf?
    ensures var x := LeafOf(s, key).idx;
            && FastLeaf(s, SearchPath(s, key), key) == Ok(x) && x in s.nodes && s.nodes[x].Leaf?
            && s.nodes[x].es == LeafOf(s, key).es
            && (Holds(s.nodes[x].es, key) <==> key in Contents(s))
  {
    hide Valid, AllShaped, SearchPath, LeafOf, FastLeaf, Contents, StateEntries, Holds;
    PathSound(s, SearchPath(s, key), key);
    LeafSorted(s, key);
  }

  // On the search path InsertFast says that the leaf has no room before it says that the key is
  // there, and has no other complaint.
  lemma InsertFastAnswers(s: State, e: Entry)
    requires Valid(s) && AllShaped(s.nodes) && s.height > 0
    ensures LeafOf(s, e.key).TLeaf?
    ensures var r := InsertFast(s, e, SearchPath(s, e.key));
            if |LeafOf(s, e.key).es| >= s.fanout then r == Err(NeedSplitSlot)
            else if e.key in Contents(s) then r == Err(DuplicateKey)
            else r.Ok?
  {
    hide Valid, AllShaped, SearchPath, LeafOf, FastLeaf, Contents, Holds, Inserted;
    OnTheSpot(s, e.key);
  }

  // UpdateFast complains of a missing key and of nothing else.
  lemma UpdateFastAnswers(s: State, e: Entry)
    requires Valid(s) && AllShaped(s.nodes) && s.height > 0
    ensures var r := UpdateFast(s, e, SearchPath(s, e.key));
            if e.key in Contents(s) then r.Ok? else r == Err(KeyNotFound)
  {
    hide Valid, AllShaped, SearchPath, LeafOf, FastLeaf, Contents, Holds, Updated;
    OnTheSpot(s, e.key);
  }

  // A Delete on the search path of a missing key says so, whatever siblings it was sent with.
  lemma {:induction false} NotThere(s: State, rq: DeleteRq, lvl: nat)
    requires RqOk(rq) && lvl < |rq.path|
    requires var x := rq.path[|rq.path| - 1]; x in s.nodes && s.nodes[x].Leaf? && !Holds(s.nodes[x].es, rq.key)
    ensures DeleteUp(s, rq, lvl) == Err(KeyNotFound)
    decreases |rq.path| - lvl
  {
    hide Fix, Holds, Removed;
    if lvl < |rq.path| - 1 {
      NotThere(s, rq, lvl + 1);
    }
  }

  lemma DeleteAnswers(s: State, rq: DeleteRq)
    requires Valid(s) && AllShaped(s.nodes) && s.height > 0 && RqOk(rq)
    requires rq.path == SearchPath(s, rq.key) && rq.key !in Contents(s)
    ensures Delete(s, rq) == Err(KeyNotFound)
  {
    hide AllShaped, SearchPath, LeafOf, Contents, Holds, DeleteUp, Descend, SibOff, Collapse, Represents, StateEntries;
    OnTheSpot(s, rq.key);
    PathSound(s, rq.path, rq.key);
    HeightCapped(s);
    hide Valid;
    NotThere(s, rq, 0);
  }

  // A placement that is in order but finds its leaf full is told to go cold; and one whose key is
  // taken, that it is.
  lemma PlaceAnswers(m: Market, o: Terms, key: Key)
    requires Sound(m) && ShapedBooks(m) && KeyReads(o, key) && TermsFit(m, o) && m.Book(o.side).height > 0
    ensures var s := m.Book(o.side);
            && LeafOf(s, key).TLeaf?
            && (var r := Place(m, o, SearchPath(s, key));
                if |LeafOf(s, key).es| >= s.fanout then r == Err(NeedSplitSlot)
                else if key in OrdersOf(m, o.side) then r == Err(DuplicateKey)
                else r.Ok?)
  {
    hide GoodBook, VaultOk, Admit, TermsFit, Contents, SearchPath, LeafOf, InsertFast, OrderEntry, StateEntries, KeyReads, AllShaped;
    KeyReadsOnly(o, key);
    var s := m.Book(o.side);
    OneBook(m, o.side);
    AdmitIff(m, o);
    InsertFastAnswers(s, OrderEntry(o));
    HeightCapped(s);
    PathSound(s, SearchPath(s, key), key);
  }

  // What a cancel reads on the search path: the order, if there is one.
  lemma CancelReads(m: Market, rq: CancelRq)
    requires Sound(m) && ShapedBooks(m) && m.Book(rq.side).height > 0 && rq.path == SearchPath(m.Book(rq.side), rq.key)
    ensures |rq.path| > 0
    ensures var r := OrderIn(LeafRead(m.Book(rq.side), rq), rq.key);
            if rq.key !in OrdersOf(m, rq.side) then r == None
            else
              var v := OrdersOf(m, rq.side)[rq.key];
              |v| == 40 && r.Some? && r.value.1 == v[..32]
  {
    hide GoodBook, VaultOk, AllShaped, Contents, SearchPath, Apply, LeafRead, OrderIn, SizeOf, LeafOf, FastLeaf;
    var s := m.Book(rq.side);
    OneBook(m, rq.side);
    PathSound(s, rq.path, rq.key);
    if rq.key in OrdersOf(m, rq.side) {
      LeafShows(s, rq, m.book);
    } else {
      DeleteTaken(s, rq.key, rq.path);
      LeafReadIs(s, rq);
      if OrderIn(LeafRead(s, rq), rq.key).Some? {
        OrderFound(LeafRead(s, rq), rq.key);
      }
    }
  }

  // So it says that there is no such order, or that it is another maker's, before it looks at the
  // account to pay.
  lemma CancelAnswers(m: Market, rq: CancelRq)
    requires Sound(m) && ShapedBooks(m) && rq.maker != m.book
    requires m.Book(rq.side).height > 0 && rq.path == SearchPath(m.Book(rq.side), rq.key)
    ensures rq.key !in OrdersOf(m, rq.side) ==> Cancel(m, rq) == Err(InvalidArgument)
    ensures rq.key in OrdersOf(m, rq.side) ==>
              |OrdersOf(m, rq.side)[rq.key]| == 40
              && (OrdersOf(m, rq.side)[rq.key][..32] != rq.maker ==> Cancel(m, rq) == Err(IllegalOwner))
  {
    hide Sound, AllShaped, OrdersOf, SearchPath, Apply, LeafRead, OrderIn, Transfer, CheckMint, OwnerOf;
    CancelReads(m, rq);
  }
}
