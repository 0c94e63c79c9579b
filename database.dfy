/**
 * The donation ledger: an append-only log of donations and one aggregate
 * account per donor, kept in step by `record_donation`, with the two read
 * queries the bot offers (one user's statistics and the leaderboard).
 * The document store becomes a sequence (the log) and a map from user id
 * to account (the users collection); timestamps are passed in.
 */
module Database {
  import opened Wrappers

  /** One entry of the donations log; never changed once written. */
  datatype DonationRecord = DonationRecord(userId: int, amount: int, tier: string, timestamp: int)

  /** A user's aggregate document, keyed by `userId`. */
  datatype UserAccount = UserAccount(
    userId: int,
    firstName: string,
    username: string,
    totalDonated: int,
    lastTierDonated: string,
    lastDonatedTimestamp: int)

  /** The sum of the amounts the log records for `userId`. */
  function LedgerTotal(log: seq<DonationRecord>, userId: int): int
    decreases |log|
  {
    if log == [] then 0
    else
      var last := log[|log| - 1];
      LedgerTotal(log[..|log| - 1], userId) + (if last.userId == userId then last.amount else 0)
  }

  /** The users that appear in the log. */
  function Donors(log: seq<DonationRecord>): set<int> {
    set d | d in log :: d.userId
  }

  /** The user ids of a list of accounts. */
  function Ranked(board: seq<UserAccount>): set<int> {
    set a | a in board :: a.userId
  }

  /**
   * The ledger invariant: every logged amount is positive, there is an
   * account exactly for each user that appears in the log, stored under its
   * own id, and its total is the sum of that user's logged amounts.
   */
  ghost predicate Consistent(log: seq<DonationRecord>, users: map<int, UserAccount>) {
    && (forall d :: d in log ==> d.amount > 0)
    && users.Keys == Donors(log)
    && (forall id :: id in users ==> users[id].userId == id && users[id].totalDonated == LedgerTotal(log, id))
  }

  /** The total that `$inc` adds to: the account's total, or 0 when there is no account yet. */
  function CurrentTotal(users: map<int, UserAccount>, userId: int): int {
    if userId in users then users[userId].totalDonated else 0
  }

  /**
   * The upsert of `record_donation` on the accounts: filtered on `userId`,
   * `$inc` of the total (from 0 when absent) and `$set` of the other fields.
   */
  function Upsert(
    users: map<int, UserAccount>, userId: int, firstName: string, username: string,
    amount: int, tier: string, timestamp: int): (r: map<int, UserAccount>)
    ensures r.Keys == users.Keys + {userId}
    ensures r[userId].userId == userId
    ensures r[userId].totalDonated == (if userId in users then users[userId].totalDonated else 0) + amount
    ensures r[userId].firstName == firstName && r[userId].username == username
    ensures r[userId].lastTierDonated == tier && r[userId].lastDonatedTimestamp == timestamp
    ensures forall id :: id in users && id != userId ==> r[id] == users[id]
  {
    users[userId := UserAccount(userId, firstName, username, CurrentTotal(users, userId) + amount, tier, timestamp)]
  }

  /**
   * Two upserts for one user add both amounts to the total, and the later
   * one's name, username, tier and timestamp win.
   */
  lemma UpsertTwice(
    users: map<int, UserAccount>, userId: int,
    firstName1: string, username1: string, amount1: int, tier1: string, timestamp1: int,
    firstName2: string, username2: string, amount2: int, tier2: string, timestamp2: int)
    ensures Upsert(Upsert(users, userId, firstName1, username1, amount1, tier1, timestamp1),
                   userId, firstName2, username2, amount2, tier2, timestamp2)[userId]
      == UserAccount(userId, firstName2, username2, CurrentTotal(users, userId) + amount1 + amount2, tier2, timestamp2)
  {
  }

  /** Appending a record adds its amount to its own user's total and nothing to anyone else's. */
  lemma {:induction false} LedgerTotalAppend(log: seq<DonationRecord>, d: DonationRecord, userId: int)
    ensures LedgerTotal(log + [d], userId) == LedgerTotal(log, userId) + (if d.userId == userId then d.amount else 0)
  {
    assert (log + [d])[..|log|] == log;
  }

  /**
   * With positive amounts, a user appears in the log exactly when its
   * ledger total is positive; a user who never donated has total 0.
   */
  lemma {:induction false} DonorIffPositiveTotal(log: seq<DonationRecord>, userId: int)
    ensures (forall d :: d in log ==> d.amount > 0) ==>
      (userId in Donors(log) <==> LedgerTotal(log, userId) > 0)
    ensures userId !in Donors(log) ==> LedgerTotal(log, userId) == 0
    decreases |log|
  {
    if log != [] {
      var init := log[..|log| - 1];
      var last := log[|log| - 1];
      assert log == init + [last];
      assert Donors(log) == Donors(init) + {last.userId};
      DonorIffPositiveTotal(init, userId);
    }
  }

  /** Recording a donation, log append and account upsert together, keeps the ledger invariant. */
  lemma RecordKeepsConsistent(
    log: seq<DonationRecord>, users: map<int, UserAccount>, userId: int, firstName: string,
    username: string, amount: int, tier: string, loggedAt: int, updatedAt: int)
    requires Consistent(log, users)
    requires amount > 0
    ensures Consistent(log + [DonationRecord(userId, amount, tier, loggedAt)],
                       Upsert(users, userId, firstName, username, amount, tier, updatedAt))
  {
    var d := DonationRecord(userId, amount, tier, loggedAt);
    var log' := log + [d];
    var users' := Upsert(users, userId, firstName, username, amount, tier, updatedAt);
    assert Donors(log') == Donors(log) + {userId};
    forall id | id in users'
      ensures users'[id].userId == id && users'[id].totalDonated == LedgerTotal(log', id)
    {
      LedgerTotalAppend(log, d, id);
      if id == userId && userId !in users {
        DonorIffPositiveTotal(log, userId);
      }
    }
  }

  /** The two collections of the donation database. */
  class DonationStore {
    /** `donations_log`, oldest first. */
    var donations: seq<DonationRecord>
    /** `users`, by user id. */
    var users: map<int, UserAccount>

    ghost predicate Valid()
      reads this
    {
      Consistent(donations, users)
    }

    constructor ()
      ensures Valid()
      ensures donations == [] && users == map[]
    {
      donations := [];
      users := map[];
    }

    /**
     * `record_donation`: log one donation, then upsert the donor's account,
     * adding `amount` to its total and overwriting its name, username, last
     * tier and last timestamp. `loggedAt` and `updatedAt` are the two
     * clock readings taken for the log entry and the account.
     */
    method RecordDonation(
      userId: int, firstName: string, username: string, amount: int, tier: string,
      loggedAt: int, updatedAt: int)
      modifies this
      ensures donations == old(donations) + [DonationRecord(userId, amount, tier, loggedAt)]
      ensures users.Keys == old(users).Keys + {userId}
      ensures users[userId] == UserAccount(userId, firstName, username,
                                           old(CurrentTotal(users, userId)) + amount, tier, updatedAt)
      ensures forall id :: id in old(users) && id != userId ==> users[id] == old(users)[id]
      ensures old(Valid()) && amount > 0 ==> Valid()
    {
      ghost var wasValid := Valid();
      ghost var log, accounts := donations, users;
      donations := donations + [DonationRecord(userId, amount, tier, loggedAt)];
      users := Upsert(users, userId, firstName, username, amount, tier, updatedAt);
      if wasValid && amount > 0 {
        RecordKeepsConsistent(log, accounts, userId, firstName, username, amount, tier, loggedAt, updatedAt);
      }
    }

    /**
     * `get_user_stats`: the user's account, or nothing for a user who never
     * donated; an account found always carries that user's positive ledger
     * total, never a zero-filled record.
     */
    function GetUserStats(userId: int): (r: Option<UserAccount>)
      reads this
      ensures r.Some? ==> userId in users && r.value == users[userId]
      ensures Valid() ==> (r.Some? <==> userId in Donors(donations))
      ensures Valid() && r.Some? ==>
        r.value.userId == userId && r.value.totalDonated == LedgerTotal(donations, userId) > 0
    {
      DonorIffPositiveTotal(donations, userId);
      if userId in users then Some(users[userId]) else None
    }

    /**
     * `get_leaderboard`: the accounts sorted by total, largest first, cut to
     * `limit`. The result holds distinct stored accounts, as many as `limit`
     * allows, in non-increasing order of total, and every account left out
     * has a total no larger than the last one listed.
     */
    method GetLeaderboard(limit: int := 10) returns (board: seq<UserAccount>)
      requires Valid()
      ensures |board| == LimitCount(limit, |users|)
      ensures forall i :: 0 <= i < |board| ==> board[i].userId in users && users[board[i].userId] == board[i]
      ensures DistinctIds(board)
      ensures SortedByTotal(board)
      ensures forall id :: id in users && id !in Ranked(board) ==>
        board != [] && users[id].totalDonated <= board[|board| - 1].totalDonated
    {
      var ranking := SortedAccounts();
      var n := LimitCount(limit, |ranking|);
      board := ranking[..n];
      LeaderboardIsTop(users, ranking, n);
    }

    /**
     * `users_collection.find().sort("total_donated", -1)`: every account,
     * largest total first. The collection is read in its natural order,
     * the order in which users first donated, and each account is put in
     * place by total.
     */
    method SortedAccounts() returns (ranking: seq<UserAccount>)
      requires Valid()
      ensures |ranking| == |users|
      ensures Ranked(ranking) == users.Keys
      ensures forall i :: 0 <= i < |ranking| ==> ranking[i].userId in users && users[ranking[i].userId] == ranking[i]
      ensures DistinctIds(ranking)
      ensures SortedByTotal(ranking)
    {
      ranking := [];
      for i := 0 to |donations|
        invariant Ranked(ranking) == Donors(donations[..i])
        invariant forall x :: x in ranking ==> x.userId in users && users[x.userId] == x
        invariant DistinctIds(ranking)
        invariant SortedByTotal(ranking)
      {
        var id := donations[i].userId;
        assert donations[..i + 1] == donations[..i] + [donations[i]];
        assert id in Donors(donations);
        if id !in Ranked(ranking) {
          InsertByTotalSorted(ranking, users[id]);
          InsertByTotalMembers(ranking, users[id]);
          InsertByTotalDistinct(ranking, users[id]);
          ranking := InsertByTotal(ranking, users[id]);
        }
      }
      assert donations[..|donations|] == donations;
      DistinctIdsCount(ranking);
    }
  }

  /**
   * How many documents a cursor cut with `.limit(limit)` yields out of
   * `available`: a limit of 0 means no limit, and a negative limit counts
   * as its absolute value.
   */
  function LimitCount(limit: int, available: nat): (n: nat)
    ensures n <= available
    ensures limit == 0 ==> n == available
    ensures limit != 0 ==> n == available || (n < available && (n == limit || n == -limit))
    ensures n <= limit || n <= -limit || limit == 0
    ensures available > 0 ==> n > 0
  {
    var cap := if limit < 0 then -limit else limit;
    if limit == 0 || available <= cap then available else cap
  }

  /** No two accounts of the list belong to the same user. */
  ghost predicate DistinctIds(board: seq<UserAccount>) {
    forall i, j :: 0 <= i < j < |board| ==> board[i].userId != board[j].userId
  }

  /** The list is in non-increasing order of total. */
  ghost predicate SortedByTotal(board: seq<UserAccount>) {
    forall i, j :: 0 <= i < j < |board| ==> board[i].totalDonated >= board[j].totalDonated
  }

  /** Where `a` goes in a list sorted by total: after every account whose total is at least its own. */
  function InsertPos(board: seq<UserAccount>, a: UserAccount): (k: nat)
    ensures k <= |board|
    ensures forall i :: 0 <= i < k ==> board[i].totalDonated >= a.totalDonated
    ensures k < |board| ==> board[k].totalDonated < a.totalDonated
  {
    if board == [] || board[0].totalDonated < a.totalDonated then 0 else 1 + InsertPos(board[1..], a)
  }

  /** `board` with `a` put in place by total. */
  function InsertByTotal(board: seq<UserAccount>, a: UserAccount): seq<UserAccount> {
    var k := InsertPos(board, a);
    board[..k] + [a] + board[k..]
  }

  /** The entries of `InsertByTotal(board, a)`: those of `board` before and after the new one at `InsertPos`. */
  lemma InsertByTotalAt(board: seq<UserAccount>, a: UserAccount)
    ensures var k, r := InsertPos(board, a), InsertByTotal(board, a);
      && |r| == |board| + 1
      && (forall i :: 0 <= i < k ==> r[i] == board[i])
      && r[k] == a
      && (forall i :: k < i < |r| ==> r[i] == board[i - 1])
  {
  }

  /** Inserting into a sorted list keeps it sorted. */
  lemma InsertByTotalSorted(board: seq<UserAccount>, a: UserAccount)
    requires SortedByTotal(board)
    ensures SortedByTotal(InsertByTotal(board, a))
  {
    var k, r := InsertPos(board, a), InsertByTotal(board, a);
    InsertByTotalAt(board, a);
    forall i, j | 0 <= i < j < |r|
      ensures r[i].totalDonated >= r[j].totalDonated
    {
      if j < k {
        assert r[i] == board[i] && r[j] == board[j];
      } else if j == k {
        assert r[i] == board[i];
      } else if i < k {
        assert r[i] == board[i] && r[j] == board[j - 1];
      } else if i == k {
        assert r[j] == board[j - 1];
      } else {
        assert r[i] == board[i - 1] && r[j] == board[j - 1];
      }
    }
  }

  /** Inserting adds exactly the one account and keeps every other. */
  lemma InsertByTotalMembers(board: seq<UserAccount>, a: UserAccount)
    ensures forall x :: x in InsertByTotal(board, a) <==> x in board || x == a
  {
    var k := InsertPos(board, a);
    assert board == board[..k] + board[k..];
  }

  /** Inserting the account of a user not yet listed adds that user and keeps the users distinct. */
  lemma InsertByTotalDistinct(board: seq<UserAccount>, a: UserAccount)
    requires SortedByTotal(board) && DistinctIds(board)
    requires a.userId !in Ranked(board)
    ensures Ranked(InsertByTotal(board, a)) == Ranked(board) + {a.userId}
    ensures DistinctIds(InsertByTotal(board, a))
  {
    var k, r := InsertPos(board, a), InsertByTotal(board, a);
    InsertByTotalAt(board, a);
    InsertByTotalMembers(board, a);
    forall i, j | 0 <= i < j < |r|
      ensures r[i].userId != r[j].userId
    {
      if i == k {
        assert r[j] == board[j - 1];
      } else if j == k {
        assert r[i] == board[i];
      }
    }
  }

  /**
   * The first `n` accounts of a sorted ranking of all accounts are distinct
   * stored accounts in order, and every account left out has a total no
   * larger than the last one kept.
   */
  lemma LeaderboardIsTop(users: map<int, UserAccount>, ranking: seq<UserAccount>, n: nat)
    requires Ranked(ranking) == users.Keys
    requires forall i :: 0 <= i < |ranking| ==> ranking[i].userId in users && users[ranking[i].userId] == ranking[i]
    requires DistinctIds(ranking) && SortedByTotal(ranking)
    requires n <= |ranking|
    requires ranking != [] ==> n > 0
    ensures forall i :: 0 <= i < n ==> ranking[..n][i].userId in users && users[ranking[..n][i].userId] == ranking[..n][i]
    ensures DistinctIds(ranking[..n]) && SortedByTotal(ranking[..n])
    ensures forall id :: id in users && id !in Ranked(ranking[..n]) ==>
      n > 0 && users[id].totalDonated <= ranking[..n][n - 1].totalDonated
  {
    var board := ranking[..n];
    if n > 0 {
      TopOfSorted(ranking, n);
    }
    forall id | id in users && id !in Ranked(board)
      ensures n > 0 && users[id].totalDonated <= board[n - 1].totalDonated
    {
      assert users[id] in ranking && users[id] !in board;
    }
  }

  /** Cutting a sorted list leaves out no account with a larger total than the last one kept. */
  lemma TopOfSorted(ranking: seq<UserAccount>, n: nat)
    requires SortedByTotal(ranking)
    requires 0 < n <= |ranking|
    ensures forall x :: x in ranking && x !in ranking[..n] ==> x.totalDonated <= ranking[n - 1].totalDonated
  {
    assert forall j :: 0 <= j < n ==> ranking[j] in ranking[..n] by {
      forall j | 0 <= j < n
        ensures ranking[j] in ranking[..n]
      {
        assert ranking[..n][j] == ranking[j];
      }
    }
    forall x | x in ranking && x !in ranking[..n]
      ensures x.totalDonated <= ranking[n - 1].totalDonated
    {
      var k :| 0 <= k < |ranking| && ranking[k] == x;
      assert k >= n;
    }
  }

  /** A list of accounts of distinct users has one user id per entry. */
  lemma {:induction false} DistinctIdsCount(board: seq<UserAccount>)
    requires DistinctIds(board)
    ensures |Ranked(board)| == |board|
    decreases |board|
  {
    if board != [] {
      DistinctIdsCount(board[1..]);
      assert Ranked(board) == {board[0].userId} + Ranked(board[1..]);
      assert board[0].userId !in Ranked(board[1..]);
    }
  }

  /**
   * Two donations by one user: the total is their sum, the last tier and
   * timestamp are the later ones, and a user who never donated has no
   * account.
   */
  method RepeatDonorScenario() {
    var store := new DonationStore();
    store.RecordDonation(42, "Ann", "ann1", 5, "starter", 1, 1);
    store.RecordDonation(42, "Ann", "ann1", 10, "warrior", 2, 2);
    var ann := store.GetUserStats(42);
    assert ann == Some(UserAccount(42, "Ann", "ann1", 15, "warrior", 2));
    var nobody := store.GetUserStats(8);
    assert nobody == None;
  }

  /** Two users donate 100 and 50: the leaderboard lists both, the larger donor first. */
  method LeaderboardScenario() {
    var store := new DonationStore();
    store.RecordDonation(1, "Bob", "bob", 100, "mythic", 1, 1);
    store.RecordDonation(2, "Cy", "cy", 50, "champion", 2, 2);
    var board := store.GetLeaderboard();
    assert |board| == 2;
    assert board[0].totalDonated >= board[1].totalDonated;
    assert board[0].userId == 1;
  }
}
