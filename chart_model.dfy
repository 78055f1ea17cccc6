/** The charts table and the `Chart` model over it (backend/models/chart.js). The SQL
    table is an in-memory map from row id to row; `lastId` is the AUTOINCREMENT counter. */
module ChartModel {
  import opened Common
  import Hex

  /** A row of the charts table. `public` is the stored column: 1 or 0. Timestamps are
      clock readings (`CURRENT_TIMESTAMP`), supplied by the caller as `now`. */
  datatype Chart = Chart(id: nat, userId: nat, title: string, content: string, public: int,
                         shareId: string, createdAt: int, updatedAt: int)

  /** The record `create` resolves with. Its `public` echoes the argument as given
      (after the default `false`), not the stored 1/0. */
  datatype NewChart = NewChart(id: nat, userId: nat, title: string, content: string,
                               public: JsValue, shareId: string)

  /** `crypto.randomBytes(8)`: the share token is the hex text of eight random bytes. */
  const ShareTokenBytes: nat := 8

  /** The default parameter `isPublic = false`. */
  function WithDefault(isPublic: JsValue): JsValue
  {
    if isPublic.Undefined? then Bool(false) else isPublic
  }

  /** `isPublic ? 1 : 0`, the value written to the `public` column. */
  function PublicColumn(isPublic: JsValue): int
  {
    if Truthy(isPublic) then 1 else 0
  }

  predicate ShareIdTaken(rows: map<nat, Chart>, token: string)
  {
    exists id :: id in rows && rows[id].shareId == token
  }

  /** Rows ordered by `updated_at DESC`. */
  predicate NewestFirst(s: seq<Chart>)
  {
    forall i, j :: 0 <= i < j < |s| ==> s[i].updatedAt >= s[j].updatedAt
  }

  /** No row listed twice. */
  predicate Distinct(s: seq<Chart>)
  {
    forall i, j :: 0 <= i < j < |s| ==> s[i] != s[j]
  }

  /** Places `c` into a list kept newest first (ahead of rows updated at the same time). */
  function InsertNewestFirst(c: Chart, s: seq<Chart>): (r: seq<Chart>)
    requires NewestFirst(s)
    ensures NewestFirst(r)
    ensures multiset(r) == multiset(s) + multiset{c}
    ensures forall x :: x in r <==> x in s || x == c
    ensures r[0] == c || (s != [] && r[0] == s[0])
  {
    if s == [] || c.updatedAt >= s[0].updatedAt then [c] + s
    else
      var rest := InsertNewestFirst(c, s[1..]);
      assert s == [s[0]] + s[1..];
      assert s[0].updatedAt >= rest[0].updatedAt;
      [s[0]] + rest
  }

  /** Inserting a row not listed yet keeps every row listed once. */
  lemma {:induction false} InsertKeepsDistinct(c: Chart, s: seq<Chart>)
    requires NewestFirst(s) && Distinct(s) && c !in s
    ensures Distinct(InsertNewestFirst(c, s))
  {
    if s != [] && c.updatedAt < s[0].updatedAt {
      var rest := InsertNewestFirst(c, s[1..]);
      assert Distinct(s[1..]) by {
        forall i, j | 0 <= i < j < |s[1..]| ensures s[1..][i] != s[1..][j] {
          assert s[1..][i] == s[i + 1] && s[1..][j] == s[j + 1];
        }
      }
      InsertKeepsDistinct(c, s[1..]);
      assert s[0] !in s[1..] by {
        forall k | 0 <= k < |s[1..]| ensures s[1..][k] != s[0] {
          assert s[1..][k] == s[k + 1];
        }
      }
      assert s[0] !in rest;
      var r := [s[0]] + rest;
      forall i, j | 0 <= i < j < |r| ensures r[i] != r[j] {
        if i == 0 {
          assert r[j] == rest[j - 1];
        } else {
          assert r[i] == rest[i - 1] && r[j] == rest[j - 1];
        }
      }
    }
  }

  class ChartTable {
    var rows: map<nat, Chart>
    var lastId: nat

    /** Each row sits under its own id, ids come from the counter, `public` is 1 or 0,
        and `share_id` is UNIQUE (backend/db.js:30). */
    ghost predicate Valid()
      reads this
    {
      && (forall id :: id in rows ==>
            rows[id].id == id && 0 < id <= lastId && (rows[id].public == 0 || rows[id].public == 1))
      && (forall i, j :: i in rows && j in rows && rows[i].shareId == rows[j].shareId ==> i == j)
    }

    constructor ()
      ensures Valid() && rows == map[] && lastId == 0
    {
      rows := map[];
      lastId := 0;
    }

    /** `Chart.create`: INSERT with a fresh id and a random share token. A token that is
        already in use violates the UNIQUE constraint and nothing is inserted. */
    method Create(userId: nat, title: string, content: string, isPublic: JsValue,
                  random: seq<bv8>, now: int) returns (r: Result<NewChart, DbError>)
      requires Valid()
      requires |random| == ShareTokenBytes
      modifies this
      ensures Valid()
      ensures var token := Hex.Encode(random);
        if ShareIdTaken(old(rows), token) then
          && r == Err(UniqueViolation("charts.share_id"))
          && rows == old(rows) && lastId == old(lastId)
        else
          && lastId == old(lastId) + 1
          && lastId !in old(rows)
          && r == Ok(NewChart(lastId, userId, title, content, WithDefault(isPublic), token))
          && rows == old(rows)[lastId := Chart(lastId, userId, title, content,
                                               PublicColumn(isPublic), token, now, now)]
      ensures r.Ok? ==> |r.value.shareId| == 2 * ShareTokenBytes
                        && forall i :: 0 <= i < |r.value.shareId| ==> Hex.IsHexDigit(r.value.shareId[i])
    {
      var shareId := Hex.Encode(random);
      if exists id :: id in rows && rows[id].shareId == shareId {
        r := Err(UniqueViolation("charts.share_id"));
        return;
      }
      lastId := lastId + 1;
      var row := Chart(lastId, userId, title, content, PublicColumn(isPublic), shareId, now, now);
      rows := rows[lastId := row];
      r := Ok(NewChart(lastId, userId, title, content, WithDefault(isPublic), shareId));
    }

    /** `Chart.findById`: the row with that id, if any. */
    function FindById(id: nat): (r: Option<Chart>)
      reads this
      requires Valid()
      ensures r.Some? ==> r.value in rows.Values && r.value.id == id
      ensures r.None? ==> forall c :: c in rows.Values ==> c.id != id
    {
      if id in rows then Some(rows[id]) else None
    }

    /** `Chart.findByShareId`: the row carrying that token, if any (there is at most one). */
    function FindByShareId(token: string): (r: Option<Chart>)
      reads this
      requires Valid()
      ensures r.Some? ==> r.value in rows.Values && r.value.shareId == token
      ensures r.None? ==> forall c :: c in rows.Values ==> c.shareId != token
    {
      if exists id :: id in rows && rows[id].shareId == token then
        var id :| id in rows && rows[id].shareId == token;
        Some(rows[id])
      else None
    }

    /** `Chart.findByUserId`: every row of that user, each once, newest update first.
        SQL leaves the order of rows updated at the same time open; so does this. */
    method FindByUserId(userId: nat) returns (result: seq<Chart>)
      requires Valid()
      ensures forall c :: c in result <==> c in rows.Values && c.userId == userId
      ensures Distinct(result)
      ensures NewestFirst(result)
    {
      var pending := rows.Keys;
      result := [];
      while pending != {}
        invariant pending <= rows.Keys
        invariant forall c :: c in result <==> c in rows.Values && c.userId == userId && c.id !in pending
        invariant Distinct(result)
        invariant NewestFirst(result)
        decreases pending
      {
        var id :| id in pending;
        pending := pending - {id};
        if rows[id].userId == userId {
          InsertKeepsDistinct(rows[id], result);
          result := InsertNewestFirst(rows[id], result);
        }
      }
    }

    /** `Chart.update`: rewrites title, content, visibility and `updated_at` of the row
        with that id; `changes` counts the rows touched. */
    method Update(id: nat, title: string, content: string, isPublic: JsValue, now: int)
      returns (changes: nat)
      requires Valid()
      modifies this
      ensures Valid() && lastId == old(lastId)
      ensures changes == if id in old(rows) then 1 else 0
      ensures rows == if id in old(rows) then
                        old(rows)[id := old(rows)[id].(title := title, content := content,
                                                      public := PublicColumn(isPublic), updatedAt := now)]
                      else old(rows)
    {
      if id in rows {
        rows := rows[id := rows[id].(title := title, content := content,
                                     public := PublicColumn(isPublic), updatedAt := now)];
        changes := 1;
      } else {
        changes := 0;
      }
    }

    /** `Chart.delete`: removes the row with that id; `changes` counts the rows removed. */
    method Delete(id: nat) returns (changes: nat)
      requires Valid()
      modifies this
      ensures Valid() && lastId == old(lastId)
      ensures changes == if id in old(rows) then 1 else 0
      ensures rows == old(rows) - {id}
    {
      changes := if id in rows then 1 else 0;
      rows := rows - {id};
    }
  }
}
