/** The member list of a room: its sids in ascending order, each with its current name. */
module MemberLists {
  import opened Prelude
  import opened HubModel

  datatype RoomMember = RoomMember(sid: Sid, name: string)

  /** The elements of a set, each once, in ascending order. */
  ghost function SortedSids(sids: set<Sid>): seq<Sid> {
    if sids == {} then []
    else
      var sid :| sid in sids;
      InsertBy(StringLeq, sid, SortedSids(sids - {sid}))
  }

  lemma {:induction false} SortedSidsSpec(sids: set<Sid>)
    ensures Ascending(StringLeq, SortedSids(sids)) && multiset(SortedSids(sids)) == multiset(sids)
    ensures |SortedSids(sids)| == |sids|
    ensures forall sid :: sid in SortedSids(sids) <==> sid in sids
  {
    StringLeqIsOrder();
    hide StringLeq;
    if sids != {} {
      var sid :| sid in sids && SortedSids(sids) == InsertBy(StringLeq, sid, SortedSids(sids - {sid}));
      SortedSidsSpec(sids - {sid});
      InsertBySorts(StringLeq, sid, SortedSids(sids - {sid}));
      InsertByKeeps(StringLeq, sid, SortedSids(sids - {sid}));
      assert multiset(sids) == multiset(sids - {sid}) + multiset{sid};
    }
    assert |SortedSids(sids)| == |multiset(SortedSids(sids))| == |multiset(sids)| == |sids|;
    forall sid ensures sid in SortedSids(sids) <==> sid in sids {
      assert sid in SortedSids(sids) <==> sid in multiset(SortedSids(sids));
    }
  }

  /** Any ascending arrangement of the set is this one. */
  lemma SortedSidsUnique(sids: set<Sid>, list: seq<Sid>)
    requires Ascending(StringLeq, list) && multiset(list) == multiset(sids)
    ensures list == SortedSids(sids)
  {
    SortedSidsSpec(sids);
    StringLeqIsOrder();
    AscendingIsUnique(StringLeq, list, SortedSids(sids));
  }

  function NamesOf(users: map<Sid, User>, sids: seq<Sid>): seq<RoomMember> {
    if sids == [] then []
    else (if sids[0] in users then [RoomMember(sids[0], users[sids[0]].name)] else []) + NamesOf(users, sids[1..])
  }

  lemma {:induction false} NamesOfAppend(users: map<Sid, User>, a: seq<Sid>, b: seq<Sid>)
    ensures NamesOf(users, a + b) == NamesOf(users, a) + NamesOf(users, b)
  {
    if a == [] {
      assert a + b == b;
    } else {
      assert (a + b)[1..] == a[1..] + b;
      NamesOfAppend(users, a[1..], b);
    }
  }

  ghost function MemberList(h: Core, room: Room): seq<RoomMember> {
    NamesOf(h.users, SortedSids(Members(h, room)))
  }

  /** What a reader of the list knows: who is there, under which name. */
  function AsMap(list: seq<RoomMember>): map<Sid, string> {
    if list == [] then map[] else AsMap(list[1..])[list[0].sid := list[0].name]
  }

  lemma {:induction false} NamesAsMap(users: map<Sid, User>, sids: seq<Sid>)
    ensures AsMap(NamesOf(users, sids)) == map sid | sid in sids && sid in users :: users[sid].name
  {
    if sids != [] {
      NamesAsMap(users, sids[1..]);
      var rest := NamesOf(users, sids[1..]);
      if sids[0] in users {
        assert ([RoomMember(sids[0], users[sids[0]].name)] + rest)[1..] == rest;
      } else {
        assert NamesOf(users, sids) == rest;
      }
      assert forall sid :: sid in sids <==> sid == sids[0] || sid in sids[1..];
    }
  }

  lemma {:induction false} NamesLength(users: map<Sid, User>, sids: seq<Sid>)
    requires forall sid :: sid in sids ==> sid in users
    ensures |NamesOf(users, sids)| == |sids|
    ensures forall i :: 0 <= i < |sids| ==> NamesOf(users, sids)[i] == RoomMember(sids[i], users[sids[i]].name)
  {
    if sids != [] {
      NamesLength(users, sids[1..]);
    }
  }

  /** The list shows exactly the members that are known users, with their names. */
  lemma MemberListAsMap(h: Core, room: Room)
    ensures AsMap(MemberList(h, room)) == map sid | sid in Members(h, room) && sid in h.users :: h.users[sid].name
  {
    SortedSidsSpec(Members(h, room));
    NamesAsMap(h.users, SortedSids(Members(h, room)));
  }

  /** The list goes up by sid, so that nobody is listed twice. */
  ghost predicate GoesUp(list: seq<RoomMember>) {
    forall i, j :: 0 <= i < j < |list| ==> Precedes(list[i].sid, list[j].sid)
  }

  /** The list goes up by sid and holds exactly the members that are known users, under their names. */
  lemma MemberListLaw(h: Core, room: Room)
    ensures GoesUp(MemberList(h, room))
    ensures forall e :: e in MemberList(h, room) <==>
      room in h.rooms && e.sid in h.rooms[room] && e.sid in h.users && e.name == h.users[e.sid].name
  {
    var sids := SortedSids(Members(h, room));
    SortedSidsSpec(Members(h, room));
    hide SortedSids, StringLeq, NamesOf;
    forall i, j | 0 <= i < j < |sids| ensures Precedes(sids[i], sids[j]) {
      NoRepeat(sids, Members(h, room), i, j);
      StringLeqMeans(sids[i], sids[j]);
    }
    hide Precedes;
    NamesAre(h.users, sids);
    NamesGoUp(h.users, sids);
  }

  lemma {:induction false} NamesAre(users: map<Sid, User>, sids: seq<Sid>)
    ensures forall e :: e in NamesOf(users, sids) <==>
      e.sid in sids && e.sid in users && e.name == users[e.sid].name
  {
    if sids == [] {
    } else {
      NamesAre(users, sids[1..]);
      assert forall sid :: sid in sids <==> sid == sids[0] || sid in sids[1..];
    }
  }

  /** Dropping the unknown keeps the order of the rest. */
  lemma {:induction false} NamesGoUp(users: map<Sid, User>, sids: seq<Sid>)
    requires forall i, j :: 0 <= i < j < |sids| ==> Precedes(sids[i], sids[j])
    ensures GoesUp(NamesOf(users, sids))
  {
    hide Precedes;
    if sids == [] {
    } else {
      var rest := NamesOf(users, sids[1..]);
      NamesGoUp(users, sids[1..]);
      NamesAre(users, sids[1..]);
      forall i | 0 <= i < |rest| ensures Precedes(sids[0], rest[i].sid) {
        assert rest[i] in rest;
        var k :| 0 <= k < |sids[1..]| && sids[1..][k] == rest[i].sid;
        assert sids[k + 1] == rest[i].sid;
      }
      if sids[0] !in users { assert NamesOf(users, sids) == rest; }
    }
  }

  /** Where every member is a known user, all are listed. */
  lemma ListLength(h: Core, room: Room)
    requires forall sid :: sid in Members(h, room) ==> sid in h.users
    ensures |MemberList(h, room)| == |Members(h, room)|
  {
    SortedSidsSpec(Members(h, room));
    hide SortedSids, NamesOf;
    NamesLength(h.users, SortedSids(Members(h, room)));
  }
}
