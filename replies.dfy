/** The reply tree of the `comment` table: `Comment::findAllReplies`, which lists a comment's
    direct replies, and the thread a comment heads (itself and every comment whose chain of
    `reply_id` links reaches it). */
module Replies {
  import opened Php
  import opened FieldMapper
  import opened Storage
  import Gateway
  import opened Hydration
  import opened Lifecycle
  import opened Comments

  // ---------------------------------------------------------------------------------------
  // findAllReplies

  /** The keys below n of the rows of t that reply to x (`reply_id = x`), in key order. */
  function RepliesBelow(t: Table, x: int, n: int): seq<int>
    decreases n
  {
    if n <= 1 then []
    else RepliesBelow(t, x, n - 1) + (if n - 1 in t.rows && Matches(t.rows[n - 1], "reply_id", Int(x)) then [n - 1] else [])
  }

  /** `SELECT ... FROM comment WHERE reply_id = ?` on the rows of t: the keys of the direct
      replies to x, in key order. A NULL `reply_id` matches nothing. */
  function Replies(t: Table, x: int): seq<int>
  {
    RepliesBelow(t, x, t.nextId)
  }

  lemma RepliesBelowExactly(t: Table, x: int, n: int)
    ensures forall c :: c in RepliesBelow(t, x, n) <==> 1 <= c < n && c in t.rows && Get(t.rows[c], "reply_id") == Int(x)
    ensures forall i, j :: 0 <= i < j < |RepliesBelow(t, x, n)| ==> RepliesBelow(t, x, n)[i] < RepliesBelow(t, x, n)[j]
  {
    RepliesBelowMembers(t, x, n);
    RepliesBelowAscending(t, x, n);
  }

  /** The keys listed below n are the replies to x with keys below n. */
  lemma {:induction false} RepliesBelowMembers(t: Table, x: int, n: int)
    ensures forall c :: c in RepliesBelow(t, x, n) <==> 1 <= c < n && c in t.rows && Get(t.rows[c], "reply_id") == Int(x)
    decreases n
  {
    if n > 1 {
      var r := RepliesBelow(t, x, n - 1);
      var last: seq<int> := if n - 1 in t.rows && Matches(t.rows[n - 1], "reply_id", Int(x)) then [n - 1] else [];
      RepliesBelowMembers(t, x, n - 1);
      assert RepliesBelow(t, x, n) == r + last;
    }
  }

  /** The keys listed below n ascend. */
  lemma {:induction false} RepliesBelowAscending(t: Table, x: int, n: int)
    ensures forall i, j :: 0 <= i < j < |RepliesBelow(t, x, n)| ==> RepliesBelow(t, x, n)[i] < RepliesBelow(t, x, n)[j]
    decreases n
  {
    if n > 1 {
      var r := RepliesBelow(t, x, n - 1);
      var last: seq<int> := if n - 1 in t.rows && Matches(t.rows[n - 1], "reply_id", Int(x)) then [n - 1] else [];
      RepliesBelowAscending(t, x, n - 1);
      RepliesBelowMembers(t, x, n - 1);
      assert RepliesBelow(t, x, n) == r + last;
      forall i | 0 <= i < |r|
        ensures r[i] < n - 1
      {
        assert r[i] in r;
      }
    }
  }

  /** The direct replies to x are exactly the rows whose `reply_id` is x, each listed once and
      in ascending key order. */
  lemma RepliesExactly(t: Table, x: int)
    requires ValidTable(t)
    ensures forall c :: c in Replies(t, x) <==> c in t.rows && Get(t.rows[c], "reply_id") == Int(x)
    ensures forall i, j :: 0 <= i < j < |Replies(t, x)| ==> Replies(t, x)[i] < Replies(t, x)[j]
  {
    RepliesBelowExactly(t, x, t.nextId);
  }

  /** `findAllReplies($replyId)`: the fetch loop pushes every row of the result, in key order. */
  method FindAllReplies(db: Database, replyId: int) returns (replies: seq<int>)
    ensures replies == Replies(db.store.comments, replyId)
  {
    var t := db.store.comments;
    replies := [];
    var id := 1;
    while id < t.nextId
      invariant 1 <= id && (id <= t.nextId || id == 1)
      invariant replies == RepliesBelow(t, replyId, id)
    {
      if id in t.rows && Matches(t.rows[id], "reply_id", Int(replyId)) {
        replies := replies + [id];
      }
      id := id + 1;
    }
  }

  // ---------------------------------------------------------------------------------------
  // Threads

  /** Every comment replies to an older one: a `reply_id` names a smaller key. */
  predicate ParentsBefore(t: Table)
  {
    forall c :: c in t.rows && Get(t.rows[c], "reply_id").Int? ==> Get(t.rows[c], "reply_id").i < c
  }

  /** The number of comments shown for comment `id`: itself, then the thread of each of its
      replies in turn. */
  function ThreadSize(t: Table, id: int): (n: nat)
    requires ValidTable(t) && ParentsBefore(t) && id in t.rows
    ensures n >= 1
    decreases t.nextId - id, 1
  {
    RepliesExactly(t, id);
    1 + ThreadSizes(t, id, Replies(t, id))
  }

  /** The sizes of the threads of the replies cs to `parent`, added up. */
  function ThreadSizes(t: Table, parent: int, cs: seq<int>): nat
    requires ValidTable(t) && ParentsBefore(t) && parent in t.rows
    requires forall c :: c in cs ==> c in t.rows && parent < c
    decreases t.nextId - parent, 0, |cs|
  {
    if cs == [] then 0
    else
      assert cs[0] in cs;
      assert forall c :: c in cs[1..] ==> c in cs;
      ThreadSize(t, cs[0]) + ThreadSizes(t, parent, cs[1..])
  }

  /** The comment a row replies to, when its `reply_id` holds an integer. */
  function ParentOf(t: Table, c: int): (r: Option<int>)
    ensures r.Some? <==> c in t.rows && Get(t.rows[c], "reply_id").Int?
    ensures r.Some? ==> Get(t.rows[c], "reply_id") == Int(r.value)
  {
    if c in t.rows && Get(t.rows[c], "reply_id").Int? then Some(Get(t.rows[c], "reply_id").i) else None
  }

  /** Following reply links upwards from d (each to an older comment) reaches `top`. */
  predicate Reaches(t: Table, d: int, top: int)
    decreases d - top
  {
    d == top
    || (d > top && ParentOf(t, d).Some? && top <= ParentOf(t, d).value < d && Reaches(t, ParentOf(t, d).value, top))
  }

  /** The comments below `top` in the reply tree, `top` included: an independent definition of
      a thread, by the links of its members rather than by the recursion of the display. */
  function Descendants(t: Table, top: int): set<int>
  {
    set d | d in t.rows && Reaches(t, d, top)
  }

  lemma {:induction false} ReachesAbove(t: Table, d: int, top: int)
    requires Reaches(t, d, top)
    ensures top <= d
    decreases d - top
  {
  }

  /** Reply links compose. */
  lemma {:induction false} ReachesTransitive(t: Table, d: int, m: int, top: int)
    requires Reaches(t, d, m) && Reaches(t, m, top)
    ensures Reaches(t, d, top)
    decreases d - m
  {
    if d != m {
      var p := ParentOf(t, d).value;
      ReachesTransitive(t, p, m, top);
      ReachesAbove(t, m, top);
      ReachesAbove(t, p, top);
    }
  }

  /** The links above a comment form a single chain: of two comments it reaches, the younger
      reaches the older. */
  lemma {:induction false} ChainIsLinear(t: Table, d: int, a: int, b: int)
    requires Reaches(t, d, a) && Reaches(t, d, b) && a <= b
    ensures Reaches(t, b, a)
    decreases d - b
  {
    if d != b {
      ReachesAbove(t, d, a);
      ChainIsLinear(t, ParentOf(t, d).value, a, b);
    }
  }

  /** A comment strictly below `top` lies in the thread of one of top's direct replies. */
  lemma {:induction false} ReplyOnChain(t: Table, d: int, top: int) returns (c: int)
    requires Reaches(t, d, top) && d != top
    ensures c in t.rows && Get(t.rows[c], "reply_id") == Int(top) && top < c && Reaches(t, d, c)
    decreases d - top
  {
    var p := ParentOf(t, d).value;
    if p == top {
      c := d;
    } else {
      c := ReplyOnChain(t, p, top);
      ReachesAbove(t, p, c);
    }
  }

  /** The union of the threads of cs. */
  function ThreadsOf(t: Table, cs: seq<int>): set<int>
  {
    if cs == [] then {} else Descendants(t, cs[0]) + ThreadsOf(t, cs[1..])
  }

  lemma {:induction false} InThreadsOf(t: Table, cs: seq<int>, d: int)
    ensures d in ThreadsOf(t, cs) <==> exists i :: 0 <= i < |cs| && d in Descendants(t, cs[i])
  {
    if cs != [] {
      InThreadsOf(t, cs[1..], d);
      if d in ThreadsOf(t, cs[1..]) {
        var i :| 0 <= i < |cs[1..]| && d in Descendants(t, cs[1..][i]);
        assert d in Descendants(t, cs[i + 1]);
      }
      forall i | 1 <= i < |cs|
        ensures cs[i] == cs[1..][i - 1]
      {
      }
    }
  }

  /** A thread is its head and the threads of the head's replies. */
  lemma ThreadSplits(t: Table, top: int)
    requires ValidTable(t) && ParentsBefore(t) && top in t.rows
    ensures Descendants(t, top) == {top} + ThreadsOf(t, Replies(t, top))
  {
    var cs := Replies(t, top);
    RepliesExactly(t, top);
    forall d | d in Descendants(t, top)
      ensures d in {top} + ThreadsOf(t, cs)
    {
      if d != top {
        var c := ReplyOnChain(t, d, top);
        var i :| 0 <= i < |cs| && cs[i] == c;
        InThreadsOf(t, cs, d);
      }
    }
    forall d | d in ThreadsOf(t, cs)
      ensures d in Descendants(t, top)
    {
      InThreadsOf(t, cs, d);
      var i :| 0 <= i < |cs| && d in Descendants(t, cs[i]);
      assert cs[i] in cs;
      assert ParentOf(t, cs[i]) == Some(top);
      assert Reaches(t, cs[i], top);
      ReachesTransitive(t, d, cs[i], top);
    }
  }

  /** The threads of two different replies to the same comment share no comment. */
  lemma ThreadsDisjoint(t: Table, top: int, c1: int, c2: int)
    requires c1 in t.rows && Get(t.rows[c1], "reply_id") == Int(top) && top < c1
    requires c2 in t.rows && Get(t.rows[c2], "reply_id") == Int(top) && top < c2
    requires c1 < c2
    ensures Descendants(t, c1) !! Descendants(t, c2)
  {
    forall d | d in Descendants(t, c1) && d in Descendants(t, c2)
      ensures false
    {
      ChainIsLinear(t, d, c1, c2);
    }
  }

  /** The displayed count of a thread is the number of comments in it: the display shows each
      comment below `id` exactly once. */
  lemma {:induction false} ThreadSizeCountsThread(t: Table, id: int)
    requires ValidTable(t) && ParentsBefore(t) && id in t.rows
    ensures ThreadSize(t, id) == |Descendants(t, id)|
    decreases t.nextId - id, 1
  {
    var cs := Replies(t, id);
    RepliesExactly(t, id);
    ThreadSplits(t, id);
    ThreadsSizes(t, id, cs);
    InThreadsOf(t, cs, id);
    assert forall i :: 0 <= i < |cs| ==> !Reaches(t, id, cs[i]);
  }

  lemma {:induction false} ThreadsSizes(t: Table, parent: int, cs: seq<int>)
    requires ValidTable(t) && ParentsBefore(t) && parent in t.rows
    requires forall c :: c in cs ==> c in t.rows && Get(t.rows[c], "reply_id") == Int(parent) && parent < c
    requires forall i, j :: 0 <= i < j < |cs| ==> cs[i] < cs[j]
    ensures ThreadSizes(t, parent, cs) == |ThreadsOf(t, cs)|
    decreases t.nextId - parent, 0, |cs|
  {
    if cs != [] {
      assert cs[0] in cs;
      ThreadSizeCountsThread(t, cs[0]);
      ThreadsSizes(t, parent, cs[1..]);
      forall d | d in Descendants(t, cs[0])
        ensures d !in ThreadsOf(t, cs[1..])
      {
        InThreadsOf(t, cs[1..], d);
        forall i | 0 <= i < |cs[1..]|
          ensures d !in Descendants(t, cs[1..][i])
        {
          assert cs[1..][i] == cs[i + 1] && cs[i + 1] in cs;
          ThreadsDisjoint(t, parent, cs[0], cs[i + 1]);
        }
      }
    }
  }

  // ---------------------------------------------------------------------------------------
  // Creating replies

  /** A create whose `replyId` names an existing comment, or none, keeps every reply older
      than the comment it answers. `create` itself does not check this. */
  lemma CreateKeepsParentsBefore(s: Store, postId: int, userId: int, content: string, replyId: Option<int>, now: string)
    requires ValidStore(s) && ParentsBefore(s.comments)
    requires replyId.Some? ==> replyId.value in s.comments.rows
    ensures ParentsBefore(Insertion(s, CommentKind, CreateData(postId, userId, content, replyId), now, true).comments)
  {
    var t := s.comments;
    var t' := Insertion(s, CommentKind, CreateData(postId, userId, content, replyId), now, true).comments;
    CreatedRowHolds(s, postId, userId, content, replyId, now);
    Gateway.CreateKeepsStore(s, CommentKind, CreateData(postId, userId, content, replyId), now);
    forall c | c in t'.rows && Get(t'.rows[c], "reply_id").Int?
      ensures Get(t'.rows[c], "reply_id").i < c
    {
      if c != t.nextId {
        assert c in t.rows;
      }
    }
  }

  /** Nothing stops a create from naming, as `replyId`, the key its own row is about to get:
      the comment then replies to itself and can never be loaded. */
  lemma SelfReplyNeverLoads(s: Store, postId: int, userId: int, content: string, now: string, fuel: nat)
    requires ValidStore(s)
    ensures var s' := Insertion(s, CommentKind, CreateData(postId, userId, content, Some(s.comments.nextId)), now, true);
      !Lookup(s', CommentKind, "id", Int(s.comments.nextId), fuel).Hit?
  {
    var id := s.comments.nextId;
    var s' := Insertion(s, CommentKind, CreateData(postId, userId, content, Some(id)), now, true);
    CreatedRowHolds(s, postId, userId, content, Some(id), now);
    Gateway.CreateKeepsStore(s, CommentKind, CreateData(postId, userId, content, Some(id)), now);
    OwnParentNeverLoads(s', id, fuel);
  }

  /** A stored comment that replies to itself never loads. */
  lemma OwnParentNeverLoads(s: Store, id: int, fuel: nat)
    requires ValidStore(s) && id in s.comments.rows && Get(s.comments.rows[id], "reply_id") == Int(id)
    ensures !Lookup(s, CommentKind, "id", Int(id), fuel).Hit?
  {
    assert ParentId(Int(id)) == Some(id);
    assert ClosedUnderParent(s, {id});
    ReplyCycleNeverLoads(s, {id}, id, fuel);
  }

  // ---------------------------------------------------------------------------------------
  // The reply forests of the browser tests

  /** A comment row as the tests create it: key `id`, replying to the comment made at position
      `parent` of the list (keys start at 1), or to none. */
  function ThreadRow(id: int, parent: Option<nat>): Row
  {
    map["id" := Int(id), "reply_id" := if parent.None? then Null else Int(parent.value + 1)]
  }

  /** The comment table after creating one comment per entry of `links`, in order: the
      entry at position i gets key i + 1. */
  function Forest(links: seq<Option<nat>>): (t: Table)
    ensures t.nextId == |links| + 1
    ensures forall c :: c in t.rows <==> 1 <= c <= |links|
    ensures forall c :: c in t.rows ==> t.rows[c] == ThreadRow(c, links[c - 1])
  {
    Table(map c | c in KeysUpTo(|links|) :: ThreadRow(c, links[c - 1]), |links| + 1)
  }

  /** The keys 1 to n. */
  function KeysUpTo(n: nat): (r: set<int>)
    ensures forall c :: c in r <==> 1 <= c <= n
  {
    if n == 0 then {} else KeysUpTo(n - 1) + {n}
  }

  /** Links that point to earlier entries give a valid table whose replies are younger than
      their parents. */
  lemma ForestValid(links: seq<Option<nat>>)
    requires forall i :: 0 <= i < |links| && links[i].Some? ==> links[i].value < i
    ensures ValidTable(Forest(links)) && ParentsBefore(Forest(links))
  {
    var t := Forest(links);
    forall c | c in t.rows && Get(t.rows[c], "reply_id").Int?
      ensures Get(t.rows[c], "reply_id").i < c
    {
      assert links[c - 1].Some?;
    }
  }

  /** One thread of three levels, as the browser test builds it: a comment, a reply with its
      own reply, and a second reply. Their threads show 4, 2, 1 and 1 comments. */
  lemma ForestOfFour(links: seq<Option<nat>>)
    requires links == [None, Some(0), Some(1), Some(0)]
    ensures ValidTable(Forest(links)) && ParentsBefore(Forest(links))
    ensures var t := Forest(links);
      ThreadSize(t, 1) == 4 && ThreadSize(t, 2) == 2 && ThreadSize(t, 3) == 1 && ThreadSize(t, 4) == 1
  {
    ForestValid(links);
    FourRowsOf(links);
    ThreadsOfFour(Forest(links));
  }

  predicate FourRows(rows: map<int, Row>)
  {
    rows == map[1 := ThreadRow(1, None), 2 := ThreadRow(2, Some(0)), 3 := ThreadRow(3, Some(1)), 4 := ThreadRow(4, Some(0))]
  }

  lemma FourRowsOf(links: seq<Option<nat>>)
    requires links == [None, Some(0), Some(1), Some(0)]
    ensures FourRows(Forest(links).rows)
  {
  }

  lemma ThreadsOfFour(t: Table)
    requires ValidTable(t) && ParentsBefore(t) && FourRows(t.rows)
    ensures ThreadSize(t, 1) == 4 && ThreadSize(t, 2) == 2 && ThreadSize(t, 3) == 1 && ThreadSize(t, 4) == 1
  {
    FourReplies(t, 1, [2, 4]);
    FourReplies(t, 2, [3]);
    FourReplies(t, 3, []);
    FourReplies(t, 4, []);
    OneReply(t, 2, 3);
    TwoReplies(t, 1, 2, 4);
  }

  lemma FourReplies(t: Table, x: int, expected: seq<int>)
    requires ValidTable(t) && FourRows(t.rows)
    requires (x, expected) in {(1, [2, 4]), (2, [3]), (3, []), (4, [])}
    ensures Replies(t, x) == expected
  {
    RepliesAre(t, x, expected);
  }

  /** Two threads, each a comment with two replies, as the browser test builds them: they show
      3, 1, 1, 3, 1 and 1 comments. */
  lemma ForestOfSix(links: seq<Option<nat>>)
    requires links == [None, Some(0), Some(0), None, Some(3), Some(3)]
    ensures ValidTable(Forest(links)) && ParentsBefore(Forest(links))
    ensures var t := Forest(links);
      && ThreadSize(t, 1) == 3 && ThreadSize(t, 2) == 1 && ThreadSize(t, 3) == 1
      && ThreadSize(t, 4) == 3 && ThreadSize(t, 5) == 1 && ThreadSize(t, 6) == 1
  {
    ForestValid(links);
    SixRowsOf(links);
    ThreadsOfSix(Forest(links));
  }

  predicate SixRows(rows: map<int, Row>)
  {
    rows == map[1 := ThreadRow(1, None), 2 := ThreadRow(2, Some(0)), 3 := ThreadRow(3, Some(0)),
                4 := ThreadRow(4, None), 5 := ThreadRow(5, Some(3)), 6 := ThreadRow(6, Some(3))]
  }

  lemma SixRowsOf(links: seq<Option<nat>>)
    requires links == [None, Some(0), Some(0), None, Some(3), Some(3)]
    ensures SixRows(Forest(links).rows)
  {
  }

  lemma ThreadsOfSix(t: Table)
    requires ValidTable(t) && ParentsBefore(t) && SixRows(t.rows)
    ensures && ThreadSize(t, 1) == 3 && ThreadSize(t, 2) == 1 && ThreadSize(t, 3) == 1
            && ThreadSize(t, 4) == 3 && ThreadSize(t, 5) == 1 && ThreadSize(t, 6) == 1
  {
    SixReplies(t, 1, [2, 3]);
    SixReplies(t, 4, [5, 6]);
    SixReplies(t, 2, []);
    SixReplies(t, 3, []);
    SixReplies(t, 5, []);
    SixReplies(t, 6, []);
    TwoReplies(t, 1, 2, 3);
    TwoReplies(t, 4, 5, 6);
  }

  lemma SixReplies(t: Table, x: int, expected: seq<int>)
    requires ValidTable(t) && SixRows(t.rows)
    requires (x, expected) in {(1, [2, 3]), (4, [5, 6]), (2, []), (3, []), (5, []), (6, [])}
    ensures Replies(t, x) == expected
  {
    RepliesAre(t, x, expected);
  }

  /** A comment with one reply shows that reply's thread under it. */
  lemma OneReply(t: Table, x: int, c: int)
    requires ValidTable(t) && ParentsBefore(t) && x in t.rows && x < c && c in t.rows
    requires Replies(t, x) == [c]
    ensures ThreadSize(t, x) == 1 + ThreadSize(t, c)
  {
    assert [c][1..] == [];
    assert ThreadSizes(t, x, []) == 0;
    assert ThreadSizes(t, x, [c]) == ThreadSize(t, c);
  }

  /** A comment with two replies shows both threads under it. */
  lemma TwoReplies(t: Table, x: int, c1: int, c2: int)
    requires ValidTable(t) && ParentsBefore(t) && x in t.rows && x < c1 && x < c2 && c1 in t.rows && c2 in t.rows
    requires Replies(t, x) == [c1, c2]
    ensures ThreadSize(t, x) == 1 + ThreadSize(t, c1) + ThreadSize(t, c2)
  {
    assert [c1, c2][1..] == [c2];
    assert [c2][1..] == [];
    assert ThreadSizes(t, x, []) == 0;
    assert ThreadSizes(t, x, [c2]) == ThreadSize(t, c2);
    assert ThreadSizes(t, x, [c1, c2]) == ThreadSize(t, c1) + ThreadSize(t, c2);
  }

  /** The direct replies to x are the listed keys, given in ascending order. */
  lemma RepliesAre(t: Table, x: int, expected: seq<int>)
    requires ValidTable(t)
    requires forall i, j :: 0 <= i < j < |expected| ==> expected[i] < expected[j]
    requires forall c :: c in expected <==> c in t.rows && Get(t.rows[c], "reply_id") == Int(x)
    ensures Replies(t, x) == expected
  {
    RepliesExactly(t, x);
    SortedByMembers(Replies(t, x), expected);
  }

  /** Two ascending sequences with the same members are equal. */
  lemma {:induction false} SortedByMembers(a: seq<int>, b: seq<int>)
    requires forall i, j :: 0 <= i < j < |a| ==> a[i] < a[j]
    requires forall i, j :: 0 <= i < j < |b| ==> b[i] < b[j]
    requires forall c :: c in a <==> c in b
    ensures a == b
    decreases |a|
  {
    AscendingCount(a);
    AscendingCount(b);
    assert (set c | c in a) == (set c | c in b);
    if a != [] {
      assert a[0] == b[0] by {
        assert a[0] in b && b[0] in a;
      }
      forall c
        ensures c in a[1..] <==> c in b[1..]
      {
        if c in a[1..] {
          assert c != a[0] && c in b;
        }
        if c in b[1..] {
          assert c != b[0] && c in a;
        }
      }
      SortedByMembers(a[1..], b[1..]);
    }
  }

  /** An ascending sequence lists as many keys as it has members. */
  lemma {:induction false} AscendingCount(a: seq<int>)
    requires forall i, j :: 0 <= i < j < |a| ==> a[i] < a[j]
    ensures |set c | c in a| == |a|
    decreases |a|
  {
    if a != [] {
      AscendingCount(a[1..]);
      assert (set c | c in a) == {a[0]} + (set c | c in a[1..]);
      assert a[0] !in a[1..];
    }
  }
}
