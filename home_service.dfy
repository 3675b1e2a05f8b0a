/** The home record store: the `homes` table seen through the database
    session, with insertion of a new row and lookup by id. */
module HomeService {
  import opened Wrappers
  import opened Models
  import opened Schemas

  /** The table's rows by primary key. */
  type Table = map<int, Home>

  /** The primary-key constraint: every row sits under its own id, so no two
      rows share an id; ids handed out by the database start at 1. */
  ghost predicate KeyedById(t: Table)
  {
    forall k :: k in t ==> t[k].id == k && k >= 1
  }

  /** `db.query(Home).filter(Home.id == home_id).first()`: the row whose id
      equals `homeId`, or nothing when no row has it. */
  function GetHomeById(t: Table, homeId: int): (r: Option<Home>)
    requires KeyedById(t)
    ensures r.Some? ==> r.value in t.Values && r.value.id == homeId
    ensures r.None? <==> forall k :: k in t ==> t[k].id != homeId
  {
    if homeId in t then Some(t[homeId]) else None
  }

  /** The row `create_home` builds: the five profile fields copied from the
      request, the id the database assigns, the insertion time, and no
      update time. */
  function NewRow(id: int, data: HomeCreate, now: Timestamp): Home
  {
    Home(id, data.sizeSqm, data.yearBuilt, data.heatingType, data.insulation, data.notes, now, None)
  }

  /** The row holds exactly the profile of the creation request. */
  predicate Copies(h: Home, data: HomeCreate)
  {
    && h.sizeSqm == data.sizeSqm
    && h.yearBuilt == data.yearBuilt
    && h.heatingType == data.heatingType
    && h.insulation == data.insulation
    && h.notes == data.notes
  }

  /** One successful `create_home` call: its request and its clock reading. */
  datatype Creation = Creation(data: HomeCreate, at: Timestamp)

  /** The table after the given creations, in order, starting from an empty
      table. The database gives each new row the next id: one more than the
      largest id so far, which is the number of rows, since rows are never
      deleted. */
  ghost function Replay(history: seq<Creation>): Table
  {
    if |history| == 0 then map[]
    else
      var last := history[|history| - 1];
      Replay(history[..|history| - 1])[|history| := NewRow(|history|, last.data, last.at)]
  }

  /** After n creations the table holds ids 1..n, the k-th created row under
      id k, carrying the k-th request's profile. */
  lemma {:induction false} ReplayRows(history: seq<Creation>)
    ensures KeyedById(Replay(history))
    ensures forall k :: k in Replay(history) <==> 1 <= k <= |history|
    ensures forall k :: 1 <= k <= |history| ==>
      Replay(history)[k] == NewRow(k, history[k - 1].data, history[k - 1].at)
  {
    if |history| > 0 {
      ReplayRows(history[..|history| - 1]);
    }
  }

  /** A creation adds exactly one row, under an id not used before, and
      leaves every other row as it was. */
  lemma ReplaySnoc(history: seq<Creation>, c: Creation)
    ensures |history| + 1 !in Replay(history)
    ensures Replay(history + [c]) == Replay(history)[|history| + 1 := NewRow(|history| + 1, c.data, c.at)]
  {
    assert (history + [c])[..|history|] == history;
    ReplayRows(history);
  }

  /** What a client observes: looking up the id of the k-th creation finds a
      row with that id and that request's profile, and looking up an id that
      no creation returned finds nothing. */
  lemma LookupAfterCreations(history: seq<Creation>, homeId: int)
    ensures KeyedById(Replay(history))
    ensures GetHomeById(Replay(history), homeId).Some? <==> 1 <= homeId <= |history|
    ensures 1 <= homeId <= |history| ==>
      var h := GetHomeById(Replay(history), homeId).value;
      h.id == homeId && Copies(h, history[homeId - 1].data) && h.createdAt == history[homeId - 1].at
  {
    ReplayRows(history);
  }

  /** The session's view of the `homes` table. */
  class HomeStore {
    var rows: Table
    /** The largest id assigned so far. */
    var lastId: nat
    /** The creations performed so far, in order. */
    ghost var history: seq<Creation>

    ghost predicate Valid()
      reads this
    {
      && rows == Replay(history)
      && lastId == |history|
      && KeyedById(rows)
    }

    constructor ()
      ensures Valid() && history == [] && rows == map[]
    {
      rows, lastId, history := map[], 0, [];
    }

    /** `create_home`: builds the row from the request's five fields, adds
        it and flushes, which assigns the id. */
    method CreateHome(data: HomeCreate, now: Timestamp) returns (home: Home)
      requires Valid()
      modifies this
      ensures Valid()
      ensures history == old(history) + [Creation(data, now)]
      ensures home.id == old(lastId) + 1 && home.id >= 1 && home.id !in old(rows)
      ensures Copies(home, data) && home.createdAt == now && home.updatedAt == None
      ensures rows == old(rows)[home.id := home]
      ensures GetHomeById(rows, home.id) == Some(home)
    {
      home := Home(
        lastId + 1, data.sizeSqm, data.yearBuilt, data.heatingType, data.insulation, data.notes,
        now, None);
      ReplaySnoc(history, Creation(data, now));
      ReplayRows(history + [Creation(data, now)]);
      rows := rows[home.id := home];
      lastId := lastId + 1;
      history := history + [Creation(data, now)];
    }

    /** `get_home_by_id` against this session. */
    function Lookup(homeId: int): (r: Option<Home>)
      reads this
      requires Valid()
      ensures r.Some? <==> 1 <= homeId <= |history|
      ensures r.Some? ==> r.value.id == homeId && Copies(r.value, history[homeId - 1].data)
    {
      LookupAfterCreations(history, homeId);
      GetHomeById(rows, homeId)
    }
  }
}
