/** The domain record of one customer account. */
module Customers {
  import opened Wrappers

  /** A creation instant; only its order matters to the model, so it is an integer. */
  type Timestamp = int

  /** A customer as the domain layer sees it: three required strings besides the account id, five
      optional contact fields, and a creation instant that is optional on a record not yet saved. */
  datatype Customer = Customer(
    accountId: string,
    firstName: string,
    lastName: string,
    email: string,
    phoneNumber: Option<string>,
    address: Option<string>,
    city: Option<string>,
    state: Option<string>,
    country: Option<string>,
    dateCreated: Option<Timestamp>)

  /** `a` sorts before or level with `b` under `ORDER BY dateCreated DESC`. PostgreSQL puts NULLs first
      in a descending order; a stored row always has its creation instant, so that case only completes
      the order. */
  predicate NotOlder(a: Option<Timestamp>, b: Option<Timestamp>) {
    a.None? || (b.Some? && a.value >= b.value)
  }

  /** Newest first: every customer is created no earlier than the ones after it. */
  predicate NewestFirst(s: seq<Customer>) {
    forall i, j :: 0 <= i < j < |s| ==> NotOlder(s[i].dateCreated, s[j].dateCreated)
  }

  /** NotOlder is a total preorder, so NewestFirst is a sortedness notion. */
  lemma NotOlderTotalPreorder(a: Option<Timestamp>, b: Option<Timestamp>, c: Option<Timestamp>)
    ensures NotOlder(a, a)
    ensures NotOlder(a, b) || NotOlder(b, a)
    ensures NotOlder(a, b) && NotOlder(b, c) ==> NotOlder(a, c)
  {
  }

  /** Places `c` into a list: before the first customer that is not newer than it. */
  function InsertNewestFirst(s: seq<Customer>, c: Customer): (r: seq<Customer>)
    ensures multiset(r) == multiset(s) + multiset{c}
    ensures |r| == |s| + 1
  {
    if s == [] then [c]
    else if NotOlder(c.dateCreated, s[0].dateCreated) then [c] + s
    else
      assert s == [s[0]] + s[1..];
      [s[0]] + InsertNewestFirst(s[1..], c)
  }

  /** A customer not older than every element of a newest-first list may go in front of it. */
  lemma ConsNewestFirst(x: Customer, t: seq<Customer>)
    requires NewestFirst(t)
    requires forall k :: 0 <= k < |t| ==> NotOlder(x.dateCreated, t[k].dateCreated)
    ensures NewestFirst([x] + t)
  {
    var r := [x] + t;
    forall i, j | 0 <= i < j < |r| ensures NotOlder(r[i].dateCreated, r[j].dateCreated) {
      if i > 0 {
        assert r[i] == t[i - 1] && r[j] == t[j - 1];
      } else {
        assert r[j] == t[j - 1];
      }
    }
  }

  /** Insertion keeps a list newest first. */
  lemma {:induction false} InsertKeepsNewestFirst(s: seq<Customer>, c: Customer)
    requires NewestFirst(s)
    ensures NewestFirst(InsertNewestFirst(s, c))
  {
    if s == [] {
    } else if NotOlder(c.dateCreated, s[0].dateCreated) {
      forall k | 0 <= k < |s| ensures NotOlder(c.dateCreated, s[k].dateCreated) {
        NotOlderTotalPreorder(c.dateCreated, s[0].dateCreated, s[k].dateCreated);
      }
      ConsNewestFirst(c, s);
    } else {
      var t := s[1..];
      var tail := InsertNewestFirst(t, c);
      assert NewestFirst(t) by {
        forall i, j | 0 <= i < j < |t| ensures NotOlder(t[i].dateCreated, t[j].dateCreated) {
          assert t[i] == s[i + 1] && t[j] == s[j + 1];
        }
      }
      InsertKeepsNewestFirst(t, c);
      forall k | 0 <= k < |tail| ensures NotOlder(s[0].dateCreated, tail[k].dateCreated) {
        assert tail[k] in multiset(tail);
        if tail[k] == c {
          NotOlderTotalPreorder(c.dateCreated, s[0].dateCreated, c.dateCreated);
        } else {
          assert tail[k] in t;
          var m :| 0 <= m < |t| && t[m] == tail[k];
          assert t[m] == s[m + 1];
        }
      }
      ConsNewestFirst(s[0], tail);
    }
  }
}
