/**
  * The in-memory record store `MemStorage`: two tables, users and submissions,
  * each keyed by an integer id that the store allocates from its own counter.
  */
module Storage {
  import opened Optional

  /** The wall-clock value stamped on a submission; the clock is an input of the model. */
  type Timestamp = int

  /** What a caller hands to `createSubmission`. */
  datatype InsertSubmission = InsertSubmission(sessionData: string, email: string)

  /** A stored submission: the caller's fields plus the allocated id and the time stamp. */
  datatype Submission = Submission(id: int, sessionData: string, email: string, submittedAt: Timestamp)

  /** What a caller hands to `createUser`. */
  datatype InsertUser = InsertUser(username: string, password: string)

  /** A stored user: the caller's fields plus the allocated id. */
  datatype User = User(id: int, username: string, password: string)

  /** `order` lists the ids 1, 2, ..., next - 1, in that order. */
  ghost predicate CountsFromOne(order: seq<int>, next: int) {
    |order| == next - 1 && forall i :: 0 <= i < |order| ==> order[i] == i + 1
  }

  /**
    * `Array.from(m.values())` for a JavaScript `Map` whose keys, in insertion
    * order, are `order`: the stored values, one per key, in that order.
    */
  function ValuesInOrder<V>(order: seq<int>, m: map<int, V>): (r: seq<V>)
    requires forall i :: 0 <= i < |order| ==> order[i] in m
    ensures |r| == |order|
    ensures forall i :: 0 <= i < |order| ==> r[i] == m[order[i]]
  {
    if order == [] then []
    else ValuesInOrder(order[..|order| - 1], m) + [m[order[|order| - 1]]]
  }

  class MemStorage {
    // Each JavaScript Map is a `map` plus `...Order`, the order in which its keys were first set.
    var users: map<int, User>
    var userOrder: seq<int>
    var submissions: map<int, Submission>
    var submissionOrder: seq<int>
    var currentUserId: int
    var currentSubmissionId: int

    /**
      * The store's invariant: each table holds exactly the ids below its counter,
      * starting at 1, inserted in increasing order, and every key is its record's id.
      */
    ghost predicate Valid()
      reads this
    {
      CountsFromOne(submissionOrder, currentSubmissionId) &&
      (forall k :: k in submissions <==> 1 <= k < currentSubmissionId) &&
      (forall k :: k in submissions ==> submissions[k].id == k) &&
      CountsFromOne(userOrder, currentUserId) &&
      (forall k :: k in users <==> 1 <= k < currentUserId) &&
      (forall k :: k in users ==> users[k].id == k)
    }

    /** A fresh store: both tables empty, both counters at 1. */
    constructor ()
      ensures Valid()
      ensures users == map[] && userOrder == [] && currentUserId == 1
      ensures submissions == map[] && submissionOrder == [] && currentSubmissionId == 1
    {
      users := map[];
      userOrder := [];
      submissions := map[];
      submissionOrder := [];
      currentUserId := 1;
      currentSubmissionId := 1;
    }

    /** `getUser`: the user stored under `id`, present exactly for the ids already allocated. */
    method GetUser(id: int) returns (u: Option<User>)
      requires Valid()
      ensures u.Some? <==> 1 <= id < currentUserId
      ensures u.Some? ==> u.value == users[id] && u.value.id == id
    {
      if id in users {
        u := Some(users[id]);
      } else {
        u := None;
      }
    }

    /**
      * `getUserByUsername`: the first user, in creation order, whose username
      * matches; since ids grow with creation, that is the one with the least id.
      */
    method GetUserByUsername(username: string) returns (u: Option<User>)
      requires Valid()
      ensures u.None? <==> forall k :: k in users ==> users[k].username != username
      ensures u.Some? ==> u.value.id in users && users[u.value.id] == u.value
      ensures u.Some? ==> u.value.username == username
      ensures u.Some? ==> forall k :: k in users && k < u.value.id ==> users[k].username != username
    {
      var all := ValuesInOrder(userOrder, users);
      var i := 0;
      while i < |all|
        invariant 0 <= i <= |all|
        invariant forall k :: 1 <= k <= i ==> k in users && users[k].username != username
      {
        if all[i].username == username {
          return Some(all[i]);
        }
        i := i + 1;
      }
      return None;
    }

    /**
      * `createUser`: the new user takes the user counter's old value as its id;
      * the counter moves on by one and nothing about submissions changes.
      */
    method CreateUser(insertUser: InsertUser) returns (user: User)
      requires Valid()
      modifies this
      ensures Valid()
      ensures user == User(old(currentUserId), insertUser.username, insertUser.password)
      ensures user.id !in old(users)
      ensures currentUserId == old(currentUserId) + 1
      ensures users == old(users)[user.id := user] && userOrder == old(userOrder) + [user.id]
      ensures submissions == old(submissions) && submissionOrder == old(submissionOrder)
      ensures currentSubmissionId == old(currentSubmissionId)
    {
      var id := currentUserId;
      currentUserId := currentUserId + 1;
      user := User(id, insertUser.username, insertUser.password);
      users := users[id := user];
      userOrder := userOrder + [id];
    }

    /**
      * `createSubmission`: the new record takes the submission counter's old value
      * as its id and is stamped with `now`; the counter moves on by one, every
      * earlier submission and the whole user table are left as they were.
      */
    method CreateSubmission(insertSubmission: InsertSubmission, now: Timestamp) returns (submission: Submission)
      requires Valid()
      modifies this
      ensures Valid()
      ensures submission ==
        Submission(old(currentSubmissionId), insertSubmission.sessionData, insertSubmission.email, now)
      ensures submission.id !in old(submissions)
      ensures currentSubmissionId == old(currentSubmissionId) + 1
      ensures submissions == old(submissions)[submission.id := submission]
      ensures submissionOrder == old(submissionOrder) + [submission.id]
      ensures users == old(users) && userOrder == old(userOrder) && currentUserId == old(currentUserId)
    {
      var id := currentSubmissionId;
      currentSubmissionId := currentSubmissionId + 1;
      submission := Submission(id, insertSubmission.sessionData, insertSubmission.email, now);
      submissions := submissions[id := submission];
      submissionOrder := submissionOrder + [id];
    }

    /** `getSubmission`: the record stored under `id`, present exactly for the ids already allocated. */
    method GetSubmission(id: int) returns (s: Option<Submission>)
      requires Valid()
      ensures s.Some? <==> 1 <= id < currentSubmissionId
      ensures s.Some? ==> s.value == submissions[id] && s.value.id == id
    {
      if id in submissions {
        s := Some(submissions[id]);
      } else {
        s := None;
      }
    }

    /**
      * `getAllSubmissions`: every stored record exactly once, in creation order,
      * so the ids read 1, 2, 3, ... and the length is the number of creates.
      */
    method GetAllSubmissions() returns (r: seq<Submission>)
      requires Valid()
      ensures |r| == currentSubmissionId - 1
      ensures forall i :: 0 <= i < |r| ==> r[i] == submissions[i + 1] && r[i].id == i + 1
      ensures forall i, j :: 0 <= i < j < |r| ==> r[i].id < r[j].id
    {
      r := ValuesInOrder(submissionOrder, submissions);
    }
  }

  /**
    * Three creates on a fresh store, then a listing: the records come back in
    * creation order with ids 1, 2 and 3, each carrying its own data.
    */
  method ListAfterThreeCreates(a: InsertSubmission, b: InsertSubmission, c: InsertSubmission,
                               ta: Timestamp, tb: Timestamp, tc: Timestamp)
    returns (all: seq<Submission>)
    ensures all == [Submission(1, a.sessionData, a.email, ta),
                    Submission(2, b.sessionData, b.email, tb),
                    Submission(3, c.sessionData, c.email, tc)]
  {
    var store := new MemStorage();
    var first := store.CreateSubmission(a, ta);
    var second := store.CreateSubmission(b, tb);
    var third := store.CreateSubmission(c, tc);
    all := store.GetAllSubmissions();
  }
}
