/** The pending-quiz table (chibi/services/pending_quiz_manager.py): at most
    one quiz per user waits for an answer, and a quiz older than the timeout
    is dropped when it is next looked at. Times are whole microseconds, the
    resolution of Python's `datetime`; the clock reading is a parameter. */
module PendingQuizzes {
  import opened Wrappers
  import opened Dicts

  const MicrosPerMinute := 60_000_000

  /** A quiz that was posted and awaits the student's answer. */
  datatype PendingQuiz = PendingQuiz(
    userId: int,
    dbUserId: int,
    channelId: int,
    messageId: int,
    moduleId: string,
    conceptId: string,
    conceptName: string,
    conceptDescription: string,
    question: string,
    correctAnswer: Option<string>,
    createdAt: int)

  /** The quiz is older than the timeout; an age equal to it is still live. */
  predicate Expired(q: PendingQuiz, now: int, timeout: int) {
    now - q.createdAt > timeout
  }

  /** The entries that have not expired. */
  function Live(m: map<int, PendingQuiz>, now: int, timeout: int): (r: map<int, PendingQuiz>)
    ensures forall u :: u in r <==> u in m && !Expired(m[u], now, timeout)
    ensures forall u :: u in r ==> r[u] == m[u]
  {
    map u | u in m && !Expired(m[u], now, timeout) :: m[u]
  }

  /** The table after `get(userId)`: an expired entry for that user is gone. */
  function AfterGet(m: map<int, PendingQuiz>, userId: int, now: int, timeout: int): map<int, PendingQuiz> {
    if userId in m && Expired(m[userId], now, timeout) then m - {userId} else m
  }

  /** The users of `keys`, in order, whose quiz has expired. */
  function ExpiredUsers(keys: seq<int>, m: map<int, PendingQuiz>, now: int, timeout: int): (r: seq<int>)
    ensures |r| <= |keys|
  {
    if keys == [] then []
    else
      var u := keys[|keys| - 1];
      ExpiredUsers(keys[..|keys| - 1], m, now, timeout)
        + (if u in m && Expired(m[u], now, timeout) then [u] else [])
  }

  /** Walking a table's keys finds each expired user exactly once. */
  lemma {:induction false} ExpiredUsersExact(keys: seq<int>, m: map<int, PendingQuiz>, now: int, timeout: int)
    requires Distinct(keys)
    ensures Distinct(ExpiredUsers(keys, m, now, timeout))
    ensures forall u :: u in ExpiredUsers(keys, m, now, timeout) <==> u in keys && u in m && Expired(m[u], now, timeout)
  {
    if keys != [] {
      var init := keys[..|keys| - 1];
      assert Distinct(init);
      ExpiredUsersExact(init, m, now, timeout);
      assert keys == init + [keys[|keys| - 1]];
      assert keys[|keys| - 1] !in init;
    }
  }

  class PendingQuizManager {
    var pending: map<int, PendingQuiz>
    /** The users of `pending` in the order the dictionary iterates them. */
    var order: seq<int>
    const timeout: int

    ghost predicate Valid()
      reads this
    {
      Ordered(order, pending)
    }

    /** An empty table whose timeout is the given number of minutes. */
    constructor(timeoutMinutes: int)
      ensures pending == map[] && order == [] && timeout == timeoutMinutes * MicrosPerMinute
      ensures Valid()
    {
      pending := map[];
      order := [];
      timeout := timeoutMinutes * MicrosPerMinute;
    }

    /** `add`: the quiz becomes the user's pending quiz, replacing any other. */
    method Add(quiz: PendingQuiz)
      modifies this
      ensures pending == old(pending)[quiz.userId := quiz] && order == Store(old(order), quiz.userId)
      ensures old(Valid()) ==> Valid()
    {
      if Valid() {
        StoreOrdered(order, pending, quiz.userId, quiz);
      }
      pending := pending[quiz.userId := quiz];
      order := Store(order, quiz.userId);
    }

    /** `get`: nothing for an unknown user; an expired quiz is deleted and
        nothing is returned; a live quiz is returned and kept. */
    method Get(userId: int, now: int) returns (r: Option<PendingQuiz>)
      modifies this
      ensures userId !in old(pending) ==> r.None? && unchanged(this)
      ensures userId in old(pending) && !Expired(old(pending)[userId], now, timeout) ==>
        r == Some(old(pending)[userId]) && unchanged(this)
      ensures userId in old(pending) && Expired(old(pending)[userId], now, timeout) ==>
        r.None? && order == Without(old(order), userId)
      ensures pending == AfterGet(old(pending), userId, now, timeout)
      ensures r.Some? <==> userId in pending
      ensures old(Valid()) ==> Valid()
    {
      if userId !in pending {
        return None;
      }
      var quiz := pending[userId];
      if Expired(quiz, now, timeout) {
        if Valid() {
          WithoutOrdered(order, pending, userId);
        }
        pending := pending - {userId};
        order := Without(order, userId);
        return None;
      }
      r := Some(quiz);
    }

    /** `remove`: deletes and returns the user's quiz, if any; nobody else's
        entry changes. */
    method Remove(userId: int) returns (r: Option<PendingQuiz>)
      modifies this
      ensures r == if userId in old(pending) then Some(old(pending)[userId]) else None
      ensures pending == old(pending) - {userId} && order == Without(old(order), userId)
      ensures old(Valid()) ==> Valid()
    {
      r := if userId in pending then Some(pending[userId]) else None;
      if Valid() {
        WithoutOrdered(order, pending, userId);
      }
      pending := pending - {userId};
      order := Without(order, userId);
    }

    /** `has_pending`: whether `get` finds a quiz, with `get`'s effect. */
    method HasPending(userId: int, now: int) returns (b: bool)
      modifies this
      ensures b <==> userId in old(pending) && !Expired(old(pending)[userId], now, timeout)
      ensures pending == AfterGet(old(pending), userId, now, timeout)
      ensures b <==> userId in pending
      ensures old(Valid()) ==> Valid()
    {
      var quiz := Get(userId, now);
      b := quiz.Some?;
    }

    /** `cleanup_expired`: every expired quiz is deleted, and only those;
        the answer is how many were deleted. */
    method CleanupExpired(now: int) returns (n: nat)
      requires Valid()
      modifies this
      ensures pending == Live(old(pending), now, timeout)
      ensures n == |old(pending)| - |pending|
      ensures n == |ExpiredUsers(old(order), old(pending), now, timeout)|
      ensures Valid()
    {
      var expired := CollectExpired(now);
      ExpiredUsersExact(order, pending, now, timeout);
      CleanupCount(pending, expired, now, timeout);
      DeleteUsers(expired);
      n := |expired|;
    }

    /** The deletion loop of `cleanup_expired`. */
    method DeleteUsers(users: seq<int>)
      requires Valid()
      modifies this
      ensures pending == DeleteAll(old(pending), users)
      ensures Valid()
    {
      ghost var m0 := pending;
      for k := 0 to |users|
        invariant pending == DeleteAll(m0, users[..k])
        invariant Ordered(order, pending)
      {
        WithoutOrdered(order, pending, users[k]);
        assert users[..k + 1][..k] == users[..k];
        pending := pending - {users[k]};
        order := Without(order, users[k]);
      }
      assert users[..|users|] == users;
    }

    /** The list comprehension of `cleanup_expired`: the expired users in
        dictionary order. */
    method CollectExpired(now: int) returns (expired: seq<int>)
      requires Valid()
      ensures expired == ExpiredUsers(order, pending, now, timeout)
    {
      expired := [];
      for k := 0 to |order|
        invariant expired == ExpiredUsers(order[..k], pending, now, timeout)
      {
        assert order[..k + 1][..k] == order[..k];
        var u := order[k];
        if Expired(pending[u], now, timeout) {
          expired := expired + [u];
        }
      }
      assert order[..|order|] == order;
    }
  }

  /** The table after `del d[u]` for each `u` of `keys` in turn. */
  function DeleteAll(m: map<int, PendingQuiz>, keys: seq<int>): (r: map<int, PendingQuiz>)
    ensures forall u :: u in r <==> u in m && u !in keys
    ensures forall u :: u in r ==> r[u] == m[u]
  {
    if keys == [] then m else DeleteAll(m, keys[..|keys| - 1]) - {keys[|keys| - 1]}
  }

  /** Deleting keys that are present, each once, shrinks the table by
      their number. */
  lemma {:induction false} DeleteAllCount(m: map<int, PendingQuiz>, keys: seq<int>)
    requires Distinct(keys)
    requires forall u :: u in keys ==> u in m
    ensures |DeleteAll(m, keys)| == |m| - |keys|
  {
    if keys != [] {
      var init := keys[..|keys| - 1];
      var last := keys[|keys| - 1];
      assert Distinct(init);
      assert keys == init + [last];
      DeleteAllCount(m, init);
      DeleteOne(DeleteAll(m, init), last);
    }
  }

  /** Deleting the expired users, listed once each, leaves the live entries,
      and the table shrinks by their number. */
  lemma CleanupCount(m: map<int, PendingQuiz>, expired: seq<int>, now: int, timeout: int)
    requires Distinct(expired)
    requires forall u :: u in expired <==> u in m && Expired(m[u], now, timeout)
    ensures DeleteAll(m, expired) == Live(m, now, timeout)
    ensures |expired| == |m| - |Live(m, now, timeout)|
  {
    DeleteAllCount(m, expired);
    var live := Live(m, now, timeout);
    var left := DeleteAll(m, expired);
    forall u
      ensures u in left <==> u in live
    {
    }
    assert left.Keys == live.Keys;
    assert left == live;
  }
}
