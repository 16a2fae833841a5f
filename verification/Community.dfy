/** The community page (`CommunityPage`): its demo members and discussions and
    the search that narrows both lists. */
module Community {
  import opened Seqs
  import opened Text

  datatype Member = Member(id: string, name: string, role: string, joinedDate: string, eventsAttended: nat, bio: string)

  datatype Discussion = Discussion(
    id: string, title: string, author: string, date: string, replies: nat, views: nat, category: string)

  const Roles: seq<string> := ["Developer", "Enthusiast", "Investor", "Founder"]
  const DiscussionCategories: seq<string> := ["General", "Technical", "Events", "Projects", "Announcements"]
  const MemberBio :=
    "Lorem ipsum dolor sit amet, consectetur adipiscing elit. Sed do eiusmod tempor incididunt ut labore et dolore magna aliqua."

  type RoleIndex = n: nat | n < 4
  type CategoryIndex = n: nat | n < 5

  /** The twelve demo members; the random role, date and count of member `i`
      are `role(i)`, `joined(i)` and `attended(i)`, each used as given. */
  function CommunityMembers(role: nat -> RoleIndex, joined: nat -> string, attended: nat -> nat): (ms: seq<Member>)
    ensures |ms| == 12
    ensures forall i :: 0 <= i < 12 ==>
              ms[i].id == "user-" + NatToString(i + 1) && ms[i].name == "User " + NatToString(i + 1) &&
              ms[i].role == Roles[role(i)] && ms[i].bio == MemberBio
  {
    seq(12, i requires 0 <= i < 12 =>
      Member("user-" + NatToString(i + 1), "User " + NatToString(i + 1), Roles[role(i)], joined(i), attended(i), MemberBio))
  }

  /** The five demo discussions, with their random fields likewise supplied:
      `replies(i)` is used as given, while the author number and the view
      count take `author(i)` modulo 12 and `views(i)` modulo 100. */
  function CommunityDiscussions(author: nat -> nat, date: nat -> string, replies: nat -> nat, views: nat -> nat,
                                category: nat -> CategoryIndex): (ds: seq<Discussion>)
    ensures |ds| == 5
    ensures forall i :: 0 <= i < 5 ==>
              ds[i].id == "discussion-" + NatToString(i + 1) && ds[i].title == "Discussion topic " + NatToString(i + 1) &&
              ds[i].category == DiscussionCategories[category(i)]
  {
    seq(5, i requires 0 <= i < 5 =>
      Discussion("discussion-" + NatToString(i + 1), "Discussion topic " + NatToString(i + 1),
                 "User " + NatToString(author(i) % 12 + 1), date(i), replies(i), views(i) % 100 + 20,
                 DiscussionCategories[category(i)]))
  }

  predicate MemberMatches(m: Member, searchTerm: string) {
    Contains(Lower(m.name), Lower(searchTerm)) || Contains(Lower(m.role), Lower(searchTerm))
  }

  predicate DiscussionMatches(d: Discussion, searchTerm: string) {
    Contains(Lower(d.title), Lower(searchTerm)) || Contains(Lower(d.category), Lower(searchTerm))
  }

  function KeepsMember(searchTerm: string): Member -> bool {
    (m: Member) => MemberMatches(m, searchTerm)
  }

  function KeepsDiscussion(searchTerm: string): Discussion -> bool {
    (d: Discussion) => DiscussionMatches(d, searchTerm)
  }

  /** `filteredMembers` */
  function FilteredMembers(members: seq<Member>, searchTerm: string): seq<Member> {
    Filter(members, KeepsMember(searchTerm))
  }

  /** `filteredDiscussions` */
  function FilteredDiscussions(discussions: seq<Discussion>, searchTerm: string): seq<Discussion> {
    Filter(discussions, KeepsDiscussion(searchTerm))
  }

  /** The member count the page shows. */
  function MemberCount(members: seq<Member>, searchTerm: string): (n: nat)
    ensures n <= |members|
  {
    |FilteredMembers(members, searchTerm)|
  }

  /** The member list keeps the given order, and a member is in it exactly
      when the lower-cased search term occurs in its lower-cased name or role. */
  lemma FilteredMembersFacts(members: seq<Member>, searchTerm: string)
    ensures IsSubseq(FilteredMembers(members, searchTerm), members)
    ensures forall i :: 0 <= i < |members| ==>
              (members[i] in FilteredMembers(members, searchTerm) <==>
               (exists k :: OccursAt(Lower(members[i].name), Lower(searchTerm), k)) ||
               (exists k :: OccursAt(Lower(members[i].role), Lower(searchTerm), k)))
  {
    var r := FilteredMembers(members, searchTerm);
    FilterIsSubseq(members, KeepsMember(searchTerm));
    forall i | 0 <= i < |members|
      ensures members[i] in r <==> MemberMatches(members[i], searchTerm)
    {
      if members[i] in r {
        var j :| 0 <= j < |r| && r[j] == members[i];
      }
    }
    forall i | 0 <= i < |members|
      ensures MemberMatches(members[i], searchTerm) <==>
              (exists k :: OccursAt(Lower(members[i].name), Lower(searchTerm), k)) ||
              (exists k :: OccursAt(Lower(members[i].role), Lower(searchTerm), k))
    {
      ContainsIffOccurs(Lower(members[i].name), Lower(searchTerm));
      ContainsIffOccurs(Lower(members[i].role), Lower(searchTerm));
    }
  }

  /** The discussion list keeps the given order, and a discussion is in it
      exactly when the lower-cased search term occurs in its lower-cased title
      or category. */
  lemma FilteredDiscussionsFacts(discussions: seq<Discussion>, searchTerm: string)
    ensures IsSubseq(FilteredDiscussions(discussions, searchTerm), discussions)
    ensures forall i :: 0 <= i < |discussions| ==>
              (discussions[i] in FilteredDiscussions(discussions, searchTerm) <==>
               (exists k :: OccursAt(Lower(discussions[i].title), Lower(searchTerm), k)) ||
               (exists k :: OccursAt(Lower(discussions[i].category), Lower(searchTerm), k)))
  {
    var r := FilteredDiscussions(discussions, searchTerm);
    FilterIsSubseq(discussions, KeepsDiscussion(searchTerm));
    forall i | 0 <= i < |discussions|
      ensures discussions[i] in r <==> DiscussionMatches(discussions[i], searchTerm)
    {
      if discussions[i] in r {
        var j :| 0 <= j < |r| && r[j] == discussions[i];
      }
    }
    forall i | 0 <= i < |discussions|
      ensures DiscussionMatches(discussions[i], searchTerm) <==>
              (exists k :: OccursAt(Lower(discussions[i].title), Lower(searchTerm), k)) ||
              (exists k :: OccursAt(Lower(discussions[i].category), Lower(searchTerm), k))
    {
      ContainsIffOccurs(Lower(discussions[i].title), Lower(searchTerm));
      ContainsIffOccurs(Lower(discussions[i].category), Lower(searchTerm));
    }
  }

  /** An empty search keeps every member and every discussion. */
  lemma EmptySearchKeepsAll(members: seq<Member>, discussions: seq<Discussion>)
    ensures FilteredMembers(members, "") == members
    ensures FilteredDiscussions(discussions, "") == discussions
    ensures MemberCount(members, "") == |members|
  {
    assert Lower("") == "";
    forall i | 0 <= i < |members| ensures KeepsMember("")(members[i]) {
      ContainsEmpty(Lower(members[i].name));
    }
    FilterAllPass(members, KeepsMember(""));
    forall i | 0 <= i < |discussions| ensures KeepsDiscussion("")(discussions[i]) {
      ContainsEmpty(Lower(discussions[i].title));
    }
    FilterAllPass(discussions, KeepsDiscussion(""));
  }

  /** The search ignores ASCII case: a term and its lower-cased form select
      the same members and discussions. */
  lemma SearchIgnoresCase(members: seq<Member>, discussions: seq<Discussion>, searchTerm: string)
    ensures FilteredMembers(members, Lower(searchTerm)) == FilteredMembers(members, searchTerm)
    ensures FilteredDiscussions(discussions, Lower(searchTerm)) == FilteredDiscussions(discussions, searchTerm)
  {
    LowerIsLower(searchTerm);
    FilterCongruent(members, KeepsMember(Lower(searchTerm)), KeepsMember(searchTerm));
    FilterCongruent(discussions, KeepsDiscussion(Lower(searchTerm)), KeepsDiscussion(searchTerm));
  }

  /** The shown member count never exceeds the directory's size, is the full
      size for an empty search and exactly when every member matches, and
      does not depend on the case of the search term. */
  lemma MemberCountFacts(members: seq<Member>, searchTerm: string)
    ensures MemberCount(members, searchTerm) <= |members|
    ensures MemberCount(members, "") == |members|
    ensures MemberCount(members, searchTerm) == |members| <==>
              forall i :: 0 <= i < |members| ==> MemberMatches(members[i], searchTerm)
    ensures MemberCount(members, Lower(searchTerm)) == MemberCount(members, searchTerm)
  {
    EmptySearchKeepsAll(members, []);
    SearchIgnoresCase(members, [], searchTerm);
    FilterLengthAllPass(members, KeepsMember(searchTerm));
  }
}
