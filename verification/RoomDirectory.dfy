/**
  The linked room structures of the hub, apart from what rooms and keys look like: each client's own
  room set, the members of each stored room, and the reverse index from keys to rooms
  (internal/infrastructure/websocket/hub.go, rooms and orgChannels, and the clients' room sets).
 */
module RoomDirectory {
  import opened Outcomes

  datatype Directory<I(==), R(==), K(==)> = Directory(
    own: map<I, set<R>>,
    members: map<R, set<I>>,
    index: map<K, set<R>>)

  function Entry<K, V>(m: map<K, set<V>>, k: K): set<V> {
    if k in m then m[k] else {}
  }

  predicate Has<K, V>(m: map<K, set<V>>, k: K, v: V) {
    k in m && v in m[k]
  }

  /** id is a member of room r exactly when it is connected and r is in its own set; no stored room is empty. */
  ghost predicate MembersAgree<I(!new), R(!new)>(own: map<I, set<R>>, members: map<R, set<I>>) {
    && (forall id, r :: Has(members, r, id) <==> Has(own, id, r))
    && (forall r :: r in members ==> members[r] != {})
  }

  /** The index holds r under k exactly when r is a stored room and k is its key; no entry is empty. */
  ghost predicate IndexAgrees<R(!new), K(!new)>(rooms: set<R>, index: map<K, set<R>>, keyOf: R -> K) {
    && (forall k, r :: Has(index, k, r) <==> r in rooms && keyOf(r) == k)
    && (forall k :: k in index ==> index[k] != {})
  }

  ghost predicate Consistent<I(!new), R(!new), K(!new)>(d: Directory<I, R, K>, keyOf: R -> K) {
    MembersAgree(d.own, d.members) && IndexAgrees(d.members.Keys, d.index, keyOf)
  }

  /** Two maps to non-empty sets that hold the same pairs are equal. */
  lemma SamePairs<K(!new), V(!new)>(m1: map<K, set<V>>, m2: map<K, set<V>>)
    requires forall k, v :: Has(m1, k, v) <==> Has(m2, k, v)
    requires forall k :: k in m1 ==> m1[k] != {}
    requires forall k :: k in m2 ==> m2[k] != {}
    ensures m1 == m2
  {
    forall k | k in m1 ensures k in m2 && m1[k] == m2[k] {
      var v :| v in m1[k];
      assert Has(m1, k, v);
      forall w ensures w in m1[k] <==> w in m2[k] { assert Has(m1, k, w) <==> Has(m2, k, w); }
    }
    forall k | k in m2 ensures k in m1 {
      var v :| v in m2[k];
      assert Has(m2, k, v);
    }
  }

  /** The own sets leave no freedom: they determine the members and the index of a consistent directory. */
  lemma ConsistentUnique<I(!new), R(!new), K(!new)>(d1: Directory<I, R, K>, d2: Directory<I, R, K>, keyOf: R -> K)
    requires Consistent(d1, keyOf) && Consistent(d2, keyOf) && d1.own == d2.own
    ensures d1 == d2
  {
    forall r, id ensures Has(d1.members, r, id) <==> Has(d2.members, r, id) {
      assert Has(d1.own, id, r) <==> Has(d2.own, id, r);
    }
    SamePairs(d1.members, d2.members);
    SamePairs(d1.index, d2.index);
  }

  function JoinMembers<I, R>(members: map<R, set<I>>, id: I, room: R): map<R, set<I>> {
    members[room := Entry(members, room) + {id}]
  }

  /** Files a room under a key, when there is one. */
  function FileRoom<R, K>(index: map<K, set<R>>, key: Option<K>, room: R): map<K, set<R>> {
    if key.None? then index else index[key.value := Entry(index, key.value) + {room}]
  }

  /** id leaves the room, and an emptied room leaves the map. */
  function DropMembers<I, R>(members: map<R, set<I>>, id: I, room: R): map<R, set<I>> {
    if room !in members then members
    else if members[room] - {id} != {} then members[room := members[room] - {id}]
    else members - {room}
  }

  predicate Empties<I, R>(members: map<R, set<I>>, id: I, room: R) {
    room in members && members[room] - {id} == {}
  }

  /** Takes a room out of the entry of a key, when there is one, and an emptied entry out of the index. */
  function UnfileRoom<R, K>(index: map<K, set<R>>, key: Option<K>, room: R): map<K, set<R>> {
    if key.None? || key.value !in index then index
    else if index[key.value] - {room} == {} then index - {key.value}
    else index[key.value := index[key.value] - {room}]
  }

  /** The bookkeeping of addToRoomLocked; key is the index key computed for the room, if any. */
  function Join<I, R, K>(d: Directory<I, R, K>, id: I, room: R, key: Option<K>): Directory<I, R, K> {
    Directory(d.own[id := Entry(d.own, id) + {room}], JoinMembers(d.members, id, room), FileRoom(d.index, key, room))
  }

  /** What removeFromRoomLocked and removeClient share: an emptied room leaves both maps. */
  function DropMember<I, R, K>(d: Directory<I, R, K>, id: I, room: R, key: Option<K>): Directory<I, R, K> {
    Directory(d.own, DropMembers(d.members, id, room),
      if Empties(d.members, id, room) then UnfileRoom(d.index, key, room) else d.index)
  }

  /** removeFromRoomLocked. */
  function Leave<I, R, K>(d: Directory<I, R, K>, id: I, room: R, key: Option<K>): Directory<I, R, K> {
    DropMember(d, id, room, key).(own := if id in d.own then d.own[id := d.own[id] - {room}] else d.own)
  }

  lemma FilingKeeps<R(!new), K(!new)>(rooms: set<R>, index: map<K, set<R>>, keyOf: R -> K, room: R)
    requires IndexAgrees(rooms, index, keyOf)
    ensures IndexAgrees(rooms + {room}, FileRoom(index, Some(keyOf(room)), room), keyOf)
  {
    var k := keyOf(room);
    var index' := FileRoom(index, Some(k), room);
    forall j, r ensures Has(index', j, r) <==> r in rooms + {room} && keyOf(r) == j {
      assert Has(index, j, r) <==> r in rooms && keyOf(r) == j;
    }
  }

  lemma UnfilingKeeps<R(!new), K(!new)>(rooms: set<R>, index: map<K, set<R>>, keyOf: R -> K, room: R)
    requires IndexAgrees(rooms, index, keyOf) && room in rooms
    ensures IndexAgrees(rooms - {room}, UnfileRoom(index, Some(keyOf(room)), room), keyOf)
  {
    var k := keyOf(room);
    var index' := UnfileRoom(index, Some(k), room);
    assert Has(index, k, room);
    forall j, r ensures Has(index', j, r) <==> r in rooms - {room} && keyOf(r) == j {
      assert Has(index, j, r) <==> r in rooms && keyOf(r) == j;
      assert r in index[k] && r != room ==> r in index[k] - {room};
    }
  }

  lemma JoinKeeps<I(!new), R(!new), K(!new)>(d: Directory<I, R, K>, keyOf: R -> K, id: I, room: R)
    requires Consistent(d, keyOf)
    ensures Consistent(Join(d, id, room, Some(keyOf(room))), keyOf)
  {
    var d' := Join(d, id, room, Some(keyOf(room)));
    forall i, r ensures Has(d'.members, r, i) <==> Has(d'.own, i, r) {
      assert Has(d.members, r, i) <==> Has(d.own, i, r);
    }
    FilingKeeps(d.members.Keys, d.index, keyOf, room);
    assert d'.members.Keys == d.members.Keys + {room};
  }

  /** Mid-removal: all agrees, except that id, with no own set, is still a member of the rooms in todo. */
  ghost predicate Leaving<I(!new), R(!new), K(!new)>(d: Directory<I, R, K>, keyOf: R -> K, id: I, todo: set<R>) {
    && MembersAgree(d.own[id := Entry(d.own, id) + todo], d.members)
    && IndexAgrees(d.members.Keys, d.index, keyOf)
  }

  lemma DropMemberKeeps<I(!new), R(!new), K(!new)>(d: Directory<I, R, K>, keyOf: R -> K, id: I, todo: set<R>, room: R)
    requires Leaving(d, keyOf, id, todo) && room in todo && !Has(d.own, id, room)
    ensures Leaving(DropMember(d, id, room, Some(keyOf(room))), keyOf, id, todo - {room})
  {
    var d' := DropMember(d, id, room, Some(keyOf(room)));
    var own, own' := d.own[id := Entry(d.own, id) + todo], d.own[id := Entry(d.own, id) + (todo - {room})];
    assert Has(own, id, room);
    assert Has(d.members, room, id);
    forall i, r ensures Has(d'.members, r, i) <==> Has(own', i, r) {
      assert Has(d.members, r, i) <==> Has(own, i, r);
      assert i in d.members[room] && i != id ==> i in d.members[room] - {id};
    }
    if d.members[room] - {id} == {} {
      UnfilingKeeps(d.members.Keys, d.index, keyOf, room);
      assert d'.members.Keys == d.members.Keys - {room};
    } else {
      assert d'.members.Keys == d.members.Keys;
    }
  }

  lemma LeaveKeeps<I(!new), R(!new), K(!new)>(d: Directory<I, R, K>, keyOf: R -> K, id: I, room: R)
    requires Consistent(d, keyOf) && id in d.own
    ensures Consistent(Leave(d, id, room, Some(keyOf(room))), keyOf)
  {
    var key := Some(keyOf(room));
    var d1 := d.(own := d.own[id := d.own[id] - {room}]);
    if room in d.own[id] {
      assert d1.own[id := Entry(d1.own, id) + {room}] == d.own by { assert d.own[id] - {room} + {room} == d.own[id]; }
      DropMemberKeeps(d1, keyOf, id, {room}, room);
      var d2 := DropMember(d1, id, room, key);
      assert Entry(d2.own, id) + ({room} - {room}) == d1.own[id];
      assert d2.own[id := d1.own[id]] == d1.own;
    } else {
      assert !Has(d.members, room, id);
      assert d.own[id] - {room} == d.own[id];
      assert room in d.members ==> d.members[room] - {id} == d.members[room];
      assert room in d.members ==> d.members[room := d.members[room]] == d.members;
      assert Leave(d, id, room, key) == d1 && d1.own == d.own;
    }
  }

  /** A newcomer without rooms changes nothing else. */
  lemma NewcomerKeeps<I(!new), R(!new), K(!new)>(d: Directory<I, R, K>, keyOf: R -> K, id: I)
    requires Consistent(d, keyOf) && id !in d.own
    ensures Consistent(d.(own := d.own[id := {}]), keyOf)
  {
  }

  /** When everybody has left, the members and the index are empty. */
  lemma NobodyLeft<I(!new), R(!new), K(!new)>(d: Directory<I, R, K>, keyOf: R -> K)
    requires Consistent(d, keyOf) && d.own == map[]
    ensures d.members == map[] && d.index == map[]
  {
    ConsistentUnique(d, Directory(map[], map[], map[]), keyOf);
  }
}
