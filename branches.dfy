/** /api/branches: the branch list ordered by name (GET) and branch creation
    by owners (POST). */
module BranchesRoute {
  import opened Wrappers
  import opened Tables
  import opened Domain
  import opened Text
  import opened Store

  const OwnersOnly := Refusal(403, "Only owners can create branches")
  const FieldsRequired := Refusal(400, "Name and location are required")
  const NameTaken := Refusal(409, "A branch with this name already exists")

  predicate SortedByName(bs: seq<Branch>) {
    forall i, j :: 0 <= i < j < |bs| ==> LexLe(bs[i].name, bs[j].name)
  }

  /** A list headed by a name no greater than any of the rest is sorted when
      the rest is. */
  lemma SortedCons(x: Branch, rest: seq<Branch>)
    requires SortedByName(rest)
    requires forall y :: y in rest ==> LexLe(x.name, y.name)
    ensures SortedByName([x] + rest)
  {
    var s := [x] + rest;
    forall i, j | 0 <= i < j < |s| ensures LexLe(s[i].name, s[j].name) {
      if i == 0 {
        assert s[j] == rest[j - 1] && rest[j - 1] in rest;
      } else {
        assert s[i] == rest[i - 1] && s[j] == rest[j - 1];
      }
    }
  }

  /** Insert one branch into a name-sorted list. */
  function InsertByName(b: Branch, bs: seq<Branch>): (r: seq<Branch>)
    requires SortedByName(bs)
    ensures SortedByName(r)
    ensures multiset(r) == multiset(bs) + multiset{b}
    decreases |bs|
  {
    if |bs| == 0 then [b]
    else if LexLe(b.name, bs[0].name) then
      forall y | y in bs ensures LexLe(b.name, y.name) {
        var j :| 0 <= j < |bs| && bs[j] == y;
        if j > 0 {
          LexLeTransitive(b.name, bs[0].name, y.name);
        }
      }
      SortedCons(b, bs);
      [b] + bs
    else
      var rest := InsertByName(b, bs[1..]);
      assert bs == [bs[0]] + bs[1..];
      LexLeTotal(b.name, bs[0].name);
      forall y | y in rest ensures LexLe(bs[0].name, y.name) {
        assert y in multiset(rest);
        if y != b {
          assert y in multiset(bs[1..]);
          var j :| 0 <= j < |bs[1..]| && bs[1..][j] == y;
          assert bs[j + 1] == y;
        }
      }
      SortedCons(bs[0], rest);
      [bs[0]] + rest
  }

  /** Sort by name in ascending code-point order. */
  function SortByName(bs: seq<Branch>): (r: seq<Branch>)
    ensures SortedByName(r)
    ensures multiset(r) == multiset(bs)
    decreases |bs|
  {
    if |bs| == 0 then []
    else
      assert bs == [bs[0]] + bs[1..];
      InsertByName(bs[0], SortByName(bs[1..]))
  }

  /** GET: every stored branch, ordered by name. */
  function ListBranches(branches: Table<Branch>): (r: seq<Branch>)
    requires branches.Valid()
    ensures SortedByName(r)
    ensures multiset(r) == multiset(branches.AllRows())
    ensures forall b :: b in r <==> exists k :: k in branches.rows && branches.rows[k] == b
  {
    var r := SortByName(branches.AllRows());
    forall b ensures b in r <==> exists k :: k in branches.rows && branches.rows[k] == b {
      assert b in r <==> b in multiset(r);
      branches.AllRowsExactly(b);
    }
    r
  }

  function CreateRefusal(branches: Table<Branch>, auth: Principal, name: string, location: string): (e: Option<Refusal>)
    requires branches.Valid()
    ensures e.None? <==>
      && auth.role == "owner" && name != "" && location != ""
      && forall k :: k in branches.rows ==> branches.rows[k].name != name
    ensures auth.role != "owner" ==> e == Some(OwnersOnly)
  {
    if auth.role != "owner" then Some(OwnersOnly)
    else if name == "" || location == "" then Some(FieldsRequired)
    else if BranchWithName(branches, name).Some? then Some(NameTaken)
    else None
  }

  /** POST: insert one branch; names stay unique (part of `Valid`). */
  method CreateBranch(db: Db, auth: Principal, name: string, location: string) returns (r: Reply<int>)
    requires db.Valid()
    modifies db`branches
    ensures db.Valid()
    ensures r == ReplyOf(CreateRefusal(old(db.branches), auth, name, location), 201, old(db.branches.next))
    ensures r.Fail? ==> db.branches == old(db.branches)
    ensures r.Done? ==> db.branches == old(db.branches).Insert(Branch(name, location))
  {
    if auth.role != "owner" {
      return Fail(OwnersOnly);
    }
    if name == "" || location == "" {
      return Fail(FieldsRequired);
    }
    if BranchWithName(db.branches, name).Some? {
      return Fail(NameTaken);
    }
    var id := db.branches.next;
    db.branches := db.branches.Insert(Branch(name, location));
    return Done(201, id);
  }
}
