/** The waiting line of one concert (WaitingQueue.java): a Redis sorted set
    whose member is the user id and whose score is the arrival time in
    milliseconds. Redis keeps the members ordered by score and breaks ties
    by comparing the member strings byte by byte; the model keeps the
    entries as a sequence in exactly that order. */
module WaitingQueue {
  import opened Errors
  import opened JavaLang

  /** Redis's tie-break between members of equal score: byte-wise comparison
      of the UTF-8 encodings, a proper prefix first. UTF-8 preserves code
      point order, so comparing characters is the same. */
  predicate MemberLess(a: string, b: string) {
    if a == [] then b != []
    else if b == [] then false
    else if a[0] != b[0] then a[0] < b[0]
    else MemberLess(a[1..], b[1..])
  }

  lemma {:induction false} MemberLessIrreflexive(a: string)
    ensures !MemberLess(a, a)
  {
    if a != [] {
      MemberLessIrreflexive(a[1..]);
    }
  }

  lemma {:induction false} MemberLessAsymmetric(a: string, b: string)
    requires MemberLess(a, b)
    ensures !MemberLess(b, a)
  {
    if a != [] && b != [] && a[0] == b[0] {
      MemberLessAsymmetric(a[1..], b[1..]);
    }
  }

  lemma {:induction false} MemberLessTransitive(a: string, b: string, c: string)
    requires MemberLess(a, b) && MemberLess(b, c)
    ensures MemberLess(a, c)
  {
    if a != [] && a[0] == b[0] && b[0] == c[0] {
      MemberLessTransitive(a[1..], b[1..], c[1..]);
    }
  }

  lemma {:induction false} MemberLessTotal(a: string, b: string)
    requires a != b
    ensures MemberLess(a, b) || MemberLess(b, a)
  {
    if a != [] && b != [] && a[0] == b[0] {
      assert a == [a[0]] + a[1..] && b == [b[0]] + b[1..];
      MemberLessTotal(a[1..], b[1..]);
    }
  }

  datatype Entry = Entry(user: string, score: int)

  /** Redis sorted-set order: by score, then by member. */
  predicate Before(e: Entry, f: Entry) {
    e.score < f.score || (e.score == f.score && MemberLess(e.user, f.user))
  }

  lemma BeforeIsStrictOrder(e: Entry, f: Entry, g: Entry)
    ensures !Before(e, e)
    ensures Before(e, f) ==> !Before(f, e)
    ensures Before(e, f) && Before(f, g) ==> Before(e, g)
    ensures e.user != f.user ==> Before(e, f) || Before(f, e)
  {
    MemberLessIrreflexive(e.user);
    if Before(e, f) && e.score == f.score {
      MemberLessAsymmetric(e.user, f.user);
    }
    if Before(e, f) && Before(f, g) && e.score == f.score == g.score {
      MemberLessTransitive(e.user, f.user, g.user);
    }
    if e.user != f.user {
      MemberLessTotal(e.user, f.user);
    }
  }

  predicate Sorted(s: seq<Entry>) {
    forall i, j :: 0 <= i < j < |s| ==> Before(s[i], s[j])
  }

  predicate DistinctUsers(s: seq<Entry>) {
    forall i, j :: 0 <= i < j < |s| ==> s[i].user != s[j].user
  }

  predicate HasUser(s: seq<Entry>, u: string) {
    exists i :: 0 <= i < |s| && s[i].user == u
  }

  function Users(s: seq<Entry>): (users: seq<string>)
    ensures |users| == |s|
    ensures forall i :: 0 <= i < |s| ==> users[i] == s[i].user
  {
    seq(|s|, i requires 0 <= i < |s| => s[i].user)
  }

  /** `ZRANK`: the position of `u`'s entry, if it has one. */
  function IndexOf(s: seq<Entry>, u: string): (r: Option<nat>)
    ensures r.Some? <==> HasUser(s, u)
    ensures r.Some? ==> r.value < |s| && s[r.value].user == u
    ensures r.Some? ==> forall j :: 0 <= j < r.value ==> s[j].user != u
  {
    if s == [] then None
    else if s[0].user == u then Some(0)
    else match IndexOf(s[1..], u)
      case None => None
      case Some(k) => Some(k + 1)
  }

  /** Where an entry goes: after every entry that does not rank above it. */
  function InsertPosition(s: seq<Entry>, e: Entry): (k: nat)
    ensures k <= |s|
    ensures forall i :: 0 <= i < k ==> !Before(e, s[i])
    ensures k < |s| ==> Before(e, s[k])
  {
    if s == [] then 0
    else if Before(e, s[0]) then 0
    else 1 + InsertPosition(s[1..], e)
  }

  function Insert(s: seq<Entry>, e: Entry): (r: seq<Entry>)
    ensures |r| == |s| + 1
  {
    var k := InsertPosition(s, e);
    s[..k] + [e] + s[k..]
  }

  /** `ZREM`: drop `u`'s entry, if any; the rest keeps its order. */
  function RemoveUser(s: seq<Entry>, u: string): (r: seq<Entry>)
    ensures !HasUser(s, u) ==> r == s
    ensures HasUser(s, u) ==> |r| == |s| - 1
  {
    match IndexOf(s, u)
    case None => s
    case Some(i) => s[..i] + s[i + 1..]
  }

  /** Inserting a new user into a sorted line keeps it sorted, with every
      entry ranking below the new one in front of it and the rest behind. */
  lemma InsertKeepsOrder(s: seq<Entry>, e: Entry)
    requires Sorted(s) && DistinctUsers(s) && !HasUser(s, e.user)
    ensures Sorted(Insert(s, e)) && DistinctUsers(Insert(s, e))
    ensures forall i :: 0 <= i < InsertPosition(s, e) ==> Before(s[i], e)
    ensures forall i :: InsertPosition(s, e) <= i < |s| ==> Before(e, s[i])
  {
    var k := InsertPosition(s, e);
    forall i | 0 <= i < k
      ensures Before(s[i], e)
    {
      BeforeIsStrictOrder(s[i], e, e);
    }
    forall i | k <= i < |s|
      ensures Before(e, s[i])
    {
      if i > k {
        BeforeIsStrictOrder(e, s[k], s[i]);
      }
    }
    var r := Insert(s, e);
    assert forall i :: 0 <= i < |r| ==> r[i] == if i < k then s[i] else if i == k then e else s[i - 1];
  }

  /** Inserting an entry adds exactly its user. */
  lemma InsertMembers(s: seq<Entry>, e: Entry)
    ensures HasUser(Insert(s, e), e.user)
    ensures forall v :: v != e.user ==> (HasUser(Insert(s, e), v) <==> HasUser(s, v))
  {
    var k := InsertPosition(s, e);
    var r := Insert(s, e);
    assert r[k] == e;
    forall v | v != e.user
      ensures HasUser(r, v) <==> HasUser(s, v)
    {
      if HasUser(s, v) {
        var j :| 0 <= j < |s| && s[j].user == v;
        assert r[if j < k then j else j + 1].user == v;
      }
      if HasUser(r, v) {
        var j :| 0 <= j < |r| && r[j].user == v;
        assert s[if j < k then j else j - 1].user == v;
      }
    }
  }

  lemma RemoveAtKeepsOrder(s: seq<Entry>, i: nat)
    requires Sorted(s) && DistinctUsers(s) && i < |s|
    ensures Sorted(s[..i] + s[i + 1..]) && DistinctUsers(s[..i] + s[i + 1..])
  {
    var r := s[..i] + s[i + 1..];
    assert forall p :: 0 <= p < |r| ==> r[p] == s[if p < i then p else p + 1];
  }

  /** Dropping the entry at `i` drops exactly its user. */
  lemma RemoveAtMembers(s: seq<Entry>, i: nat)
    requires DistinctUsers(s) && i < |s|
    ensures !HasUser(s[..i] + s[i + 1..], s[i].user)
    ensures forall v :: v != s[i].user ==> (HasUser(s[..i] + s[i + 1..], v) <==> HasUser(s, v))
  {
    var r := s[..i] + s[i + 1..];
    forall p | 0 <= p < |r|
      ensures r[p] == s[if p < i then p else p + 1]
    {
    }
    forall v | v != s[i].user && HasUser(s, v)
      ensures HasUser(r, v)
    {
      var j :| 0 <= j < |s| && s[j].user == v;
      assert r[if j < i then j else j - 1].user == v;
    }
  }

  lemma RemoveKeepsOrder(s: seq<Entry>, u: string)
    requires Sorted(s) && DistinctUsers(s)
    ensures Sorted(RemoveUser(s, u)) && DistinctUsers(RemoveUser(s, u))
    ensures !HasUser(RemoveUser(s, u), u)
    ensures forall v :: v != u ==> (HasUser(RemoveUser(s, u), v) <==> HasUser(s, v))
  {
    match IndexOf(s, u)
    case None =>
    case Some(i) =>
      RemoveAtKeepsOrder(s, i);
      RemoveAtMembers(s, i);
  }

  /** In a sorted line a user's rank is the number of entries ranking below
      it: exactly the entries in front of it rank below it. */
  lemma RankCountsEntriesBefore(s: seq<Entry>, k: nat)
    requires Sorted(s) && k < |s|
    ensures forall j :: 0 <= j < |s| ==> (j < k <==> Before(s[j], s[k]))
  {
    forall j | 0 <= j < |s|
      ensures j < k <==> Before(s[j], s[k])
    {
      BeforeIsStrictOrder(s[j], s[k], s[k]);
      BeforeIsStrictOrder(s[k], s[j], s[j]);
    }
  }

  /** With a strictly increasing clock, a newcomer ranks behind everyone. */
  lemma LaterArrivalGoesLast(s: seq<Entry>, u: string, now: int)
    requires forall i :: 0 <= i < |s| ==> s[i].score < now
    ensures InsertPosition(s, Entry(u, now)) == |s|
  {
    // A direct consequence of the contract of `InsertPosition`: no entry
    // ranks behind the newcomer, so it stops only at the end.
  }

  /** The end of `ZRANGE key 0 (count - 1)`: Redis reads a negative stop
      index as counting from the end, and clamps it to the last element.
      `count - 1` is Java `long` arithmetic, so the smallest `long` wraps
      round to the largest and the whole line is read. */
  function RangeEnd(size: nat, count: Int64): (end: nat)
    ensures end <= size
    ensures count >= 1 ==> end == if count < size then count else size
    ensures count == 0 ==> end == size
    ensures count == -0x8000_0000_0000_0000 ==> end == Min(size, 0x8000_0000_0000_0000)
    ensures -0x8000_0000_0000_0000 < count && count + size <= 0 ==> end == 0
  {
    var stop := WrapLong(count - 1);
    var last := if stop < 0 then size + stop else stop;
    if last < 0 then 0 else if last >= size then size else last + 1
  }

  class WaitingQueue {
    var entries: seq<Entry>

    ghost predicate Valid()
      reads this
    {
      Sorted(entries) && DistinctUsers(entries)
    }

    constructor ()
      ensures Valid() && entries == []
    {
      entries := [];
    }

    /** `contains`: the user has a score. */
    function Contains(userId: string): (b: bool)
      reads this
      ensures b <==> exists i :: 0 <= i < |entries| && entries[i].user == userId
    {
      IndexOf(entries, userId).Some?
    }

    /** `rank`: 0-based position by ascending score, none when absent. */
    function Rank(userId: string): (r: Option<nat>)
      reads this
      requires Valid()
      ensures r.Some? <==> Contains(userId)
      ensures r.Some? ==> r.value < |entries| && entries[r.value].user == userId
      ensures r.Some? ==> forall j :: 0 <= j < |entries| ==> (j < r.value <==> Before(entries[j], entries[r.value]))
    {
      var r := IndexOf(entries, userId);
      if r.Some? then RankCountsEntriesBefore(entries, r.value); r else r
    }

    /** `getAll`: every member, in rank order (empty when there are none). */
    function GetAll(): (users: seq<string>)
      reads this
      requires Valid()
      ensures forall u :: u in users <==> Contains(u)
      ensures forall i :: 0 <= i < |users| ==> Rank(users[i]) == Some(i)
    {
      var users := Users(entries);
      assert forall u :: u in users ==> exists i :: 0 <= i < |users| && users[i] == u;
      users
    }

    /** `add`: `ZADD` with the current time as score. A user already present
        is re-scored, which Redis does by moving its entry. */
    method Add(userId: string, now: int)
      requires Valid()
      modifies this
      ensures Valid()
      ensures entries == Insert(RemoveUser(old(entries), userId), Entry(userId, now))
      ensures Contains(userId)
      ensures forall v :: v != userId ==> (Contains(v) <==> old(Contains(v)))
    {
      RemoveKeepsOrder(entries, userId);
      var rest := RemoveUser(entries, userId);
      InsertKeepsOrder(rest, Entry(userId, now));
      InsertMembers(rest, Entry(userId, now));
      entries := Insert(rest, Entry(userId, now));
    }

    /** `remove`: drops only `userId`; the others keep their relative order. */
    method Remove(userId: string)
      requires Valid()
      modifies this
      ensures Valid()
      ensures entries == RemoveUser(old(entries), userId)
      ensures !Contains(userId)
      ensures forall v :: v != userId ==> (Contains(v) <==> old(Contains(v)))
    {
      RemoveKeepsOrder(entries, userId);
      entries := RemoveUser(entries, userId);
    }

    /** `pollTopUsers`: read the range `0 .. count - 1`, then remove the users
        read, one by one. For `count >= 1` that is the first `min(count, size)`
        members; the rest keeps its order. */
    method PollTopUsers(count: Int64) returns (polled: seq<string>)
      requires Valid()
      modifies this
      ensures Valid()
      ensures polled == Users(old(entries)[..RangeEnd(|old(entries)|, count)])
      ensures entries == old(entries)[RangeEnd(|old(entries)|, count)..]
    {
      var users := Users(entries[..RangeEnd(|entries|, count)]);
      if |users| == 0 {
        return [];
      }
      polled := users;
      for i := 0 to |polled|
        invariant Valid()
        invariant entries == old(entries)[i..]
      {
        assert IndexOf(entries, polled[i]) == Some(0);
        Remove(polled[i]);
      }
    }
  }
}
