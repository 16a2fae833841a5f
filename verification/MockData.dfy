/** The deterministic part of the demo-data generator: `generateMockUsers`. */
module MockData {
  import opened Wrappers
  import opened Types
  import opened Text

  /** The seeded user with 1-based number `k`; `joined` is what the clock
      returned when that user was built. */
  function MockUser(k: nat, joined: string): User {
    User("user-" + NatToString(k), "User " + NatToString(k), "user" + NatToString(k) + "@gmail.com",
         None, None, None, joined, None, None, None, None, None, None, None)
  }

  /** `generateMockUsers(count)`; `clock(i)` is the ISO timestamp read while
      building the user at index `i`. */
  function GenerateMockUsers(count: nat, clock: nat -> string): seq<User> {
    seq(count, i requires 0 <= i < count => MockUser(i + 1, clock(i)))
  }

  /** Exactly `count` users, numbered from 1 in index order, with only the
      identifying fields and the join date set. */
  lemma MockUsersShape(count: nat, clock: nat -> string)
    ensures |GenerateMockUsers(count, clock)| == count
    ensures count == 0 ==> GenerateMockUsers(count, clock) == []
    ensures forall i :: 0 <= i < count ==>
      var u := GenerateMockUsers(count, clock)[i];
      && u.id == "user-" + NatToString(i + 1)
      && u.name == "User " + NatToString(i + 1)
      && u.email == "user" + NatToString(i + 1) + "@gmail.com"
      && u.joinedDate == clock(i)
      && u.role == None && u.eventsAttended == None && u.connections == None
  {
    var us := GenerateMockUsers(count, clock);
    forall i | 0 <= i < count ensures us[i] == MockUser(i + 1, clock(i)) { }
  }

  /** No two seeded users share an id or an email, so the seeded catalog
      never trips the duplicate-email rule among its own members. */
  lemma MockUsersDistinct(count: nat, clock: nat -> string)
    ensures forall i, j :: 0 <= i < j < count ==>
      GenerateMockUsers(count, clock)[i].id != GenerateMockUsers(count, clock)[j].id &&
      GenerateMockUsers(count, clock)[i].email != GenerateMockUsers(count, clock)[j].email
  {
    var us := GenerateMockUsers(count, clock);
    forall i, j | 0 <= i < j < count ensures us[i].id != us[j].id && us[i].email != us[j].email {
      var a, b := NatToString(i + 1), NatToString(j + 1);
      assert us[i] == MockUser(i + 1, clock(i)) && us[j] == MockUser(j + 1, clock(j));
      assert a != b by {
        if a == b { NatToStringInjective(i + 1, j + 1); }
      }
      assert "user-" + a + "" == "user-" + a && "user-" + b + "" == "user-" + b;
      if us[i].id == us[j].id {
        FramedEqual("user-", a, b, "");
      }
      if us[i].email == us[j].email {
        FramedEqual("user", a, b, "@gmail.com");
      }
    }
  }
}
