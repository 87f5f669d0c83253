// `quota-usage`: each user's cpu and disk usage, given a health, and the
// listing sorted worst health first.
module AdminUsage {
  import opened Wrappers


  datatype Health = Healthy | Warning | Critical

  /** `health_order`. */
  function Rank(h: Health): nat
  {
    match h
    case Healthy => 0
    case Warning => 1
    case Critical => 2
  }

  /** `max([disk, cpu], key=health_order)`: the worse of the two, the disk's on a tie. */
  function Worse(disk: Health, cpu: Health): (r: Health)
    ensures r == disk || r == cpu
    ensures Rank(r) >= Rank(disk) && Rank(r) >= Rank(cpu)
  {
    if Rank(cpu) > Rank(disk) then cpu else disk
  }

  /** One resource in `User.get_quota_usage()`; `usage` is absent when the entry has no usage. */
  datatype ResourceUsage = ResourceUsage(usage: Option<map<string, Json>>, limit: map<string, Json>, health: Option<Health>)

  /** A user as the listing reads one; `cpu` or `disk` is absent when the user has no such resource. */
  datatype UsageUser = UsageUser(id: string, email: string, cpu: Option<ResourceUsage>, disk: Option<ResourceUsage>)

  /** One line of the listing: id, email, cpu used and limit, disk used and limit. */
  datatype UsageRow = UsageRow(id: string, email: string, cpuUsed: Json, cpuLimit: Json, diskUsed: Json, diskLimit: Json)

  /** A row with its colour and health, as the listing sorts them together. */
  datatype Listed<R> = Listed(row: R, colour: string, health: Health)

  /** `d.get(k)` on a JSON-like map, `None` being `null`. */
  function Cell(m: map<string, Json>, k: string): Json
  {
    if k in m then m[k] else JNull
  }

  /** `... or "-"`. */
  function OrDash(j: Json): (r: Json)
    ensures Truthy(j) ==> r == j
    ensures !Truthy(j) ==> r == JStr("-")
  {
    if Truthy(j) then j else JStr("-")
  }

  /** Whether a user can be listed: reading a missing resource or usage raises. */
  predicate Listable(u: UsageUser)
  {
    u.cpu.Some? && u.disk.Some? && u.cpu.value.usage.Some? && u.disk.value.usage.Some?
  }

  /** A user's health: the worse of disk and cpu, healthy where none is recorded. */
  function UserHealth(u: UsageUser): (h: Health)
    requires u.cpu.Some? && u.disk.Some?
    ensures Rank(h) >= Rank(u.disk.value.health.GetOr(Healthy))
    ensures Rank(h) >= Rank(u.cpu.value.health.GetOr(Healthy))
    ensures h == u.disk.value.health.GetOr(Healthy) || h == u.cpu.value.health.GetOr(Healthy)
  {
    Worse(u.disk.value.health.GetOr(Healthy), u.cpu.value.health.GetOr(Healthy))
  }

  function ListedOf(u: UsageUser, format: string, colourOf: Health -> string): (l: Listed<UsageRow>)
    requires Listable(u)
    ensures l.colour == colourOf(l.health)
  {
    var cpu, disk := u.cpu.value, u.disk.value;
    var h := UserHealth(u);
    Listed(UsageRow(u.id, u.email, Cell(cpu.usage.value, format), OrDash(Cell(cpu.limit, format)),
                    Cell(disk.usage.value, format), OrDash(Cell(disk.limit, format))),
           colourOf(h), h)
  }

  /** The rows of a given health, in their order. */
  function WithHealth<R>(ls: seq<Listed<R>>, h: Health): seq<Listed<R>>
  {
    if ls == [] then []
    else if ls[0].health == h then [ls[0]] + WithHealth(ls[1..], h)
    else WithHealth(ls[1..], h)
  }

  lemma {:induction false} WithHealthMembers<R>(ls: seq<Listed<R>>, h: Health)
    ensures forall x :: x in WithHealth(ls, h) <==> x in ls && x.health == h
  {
    if ls != [] {
      WithHealthMembers(ls[1..], h);
      assert ls == [ls[0]] + ls[1..];
    }
  }

  lemma {:induction false} WithHealthAll<R>(ls: seq<Listed<R>>, h: Health)
    ensures forall k :: 0 <= k < |WithHealth(ls, h)| ==> WithHealth(ls, h)[k].health == h
  {
    if ls != [] {
      WithHealthAll(ls[1..], h);
    }
  }

  /** `sorted(..., key=health_order, reverse=True)`, which is stable: critical rows, then warning, then healthy. */
  function SortByHealth<R>(ls: seq<Listed<R>>): seq<Listed<R>>
  {
    WithHealth(ls, Critical) + WithHealth(ls, Warning) + WithHealth(ls, Healthy)
  }

  predicate DescendingHealth<R>(ls: seq<Listed<R>>)
  {
    forall i, j :: 0 <= i < j < |ls| ==> Rank(ls[i].health) >= Rank(ls[j].health)
  }

  lemma {:induction false} WithHealthConcat<R>(a: seq<Listed<R>>, b: seq<Listed<R>>, h: Health)
    ensures WithHealth(a + b, h) == WithHealth(a, h) + WithHealth(b, h)
  {
    if a == [] {
      assert a + b == b;
    } else {
      WithHealthConcat(a[1..], b, h);
      assert (a + b)[1..] == a[1..] + b;
    }
  }

  lemma {:induction false} WithHealthOnly<R>(ls: seq<Listed<R>>, h: Health)
    requires forall k :: 0 <= k < |ls| ==> ls[k].health == h
    ensures WithHealth(ls, h) == ls
  {
    if ls != [] {
      WithHealthOnly(ls[1..], h);
      assert ls == [ls[0]] + ls[1..];
    }
  }

  lemma {:induction false} WithHealthNone<R>(ls: seq<Listed<R>>, h: Health)
    requires forall k :: 0 <= k < |ls| ==> ls[k].health != h
    ensures WithHealth(ls, h) == []
  {
    if ls != [] {
      WithHealthNone(ls[1..], h);
    }
  }

  lemma {:induction false} WithHealthMultiset<R>(ls: seq<Listed<R>>)
    ensures multiset(ls) == multiset(WithHealth(ls, Critical)) + multiset(WithHealth(ls, Warning)) + multiset(WithHealth(ls, Healthy))
  {
    if ls != [] {
      WithHealthMultiset(ls[1..]);
      assert ls == [ls[0]] + ls[1..];
    }
  }

  /** The sorted rows are the listed rows, only reordered, worst health first. */
  lemma SortByHealthSorts<R>(ls: seq<Listed<R>>)
    ensures DescendingHealth(SortByHealth(ls))
    ensures multiset(SortByHealth(ls)) == multiset(ls)
  {
    WithHealthMultiset(ls);
    WithHealthAll(ls, Critical);
    WithHealthAll(ls, Warning);
    WithHealthAll(ls, Healthy);
    GroupsDescending(WithHealth(ls, Critical), WithHealth(ls, Warning), WithHealth(ls, Healthy));
  }

  lemma GroupsDescending<R>(c: seq<Listed<R>>, w: seq<Listed<R>>, y: seq<Listed<R>>)
    requires forall k :: 0 <= k < |c| ==> c[k].health == Critical
    requires forall k :: 0 <= k < |w| ==> w[k].health == Warning
    requires forall k :: 0 <= k < |y| ==> y[k].health == Healthy
    ensures DescendingHealth(c + w + y)
  {
    var s := c + w + y;
    forall k | 0 <= k < |s|
      ensures Rank(s[k].health) == (if k < |c| then 2 else if k < |c| + |w| then 1 else 0)
    {
      if k < |c| {
        assert s[k] == c[k];
      } else if k < |c| + |w| {
        assert s[k] == w[k - |c|];
      } else {
        assert s[k] == y[k - |c| - |w|];
      }
    }
  }

  /** Sorting is stable: the rows of one health keep the order they were listed in. */
  lemma SortByHealthStable<R>(ls: seq<Listed<R>>, h: Health)
    ensures WithHealth(SortByHealth(ls), h) == WithHealth(ls, h)
  {
    var c, w, y := WithHealth(ls, Critical), WithHealth(ls, Warning), WithHealth(ls, Healthy);
    WithHealthConcat(c + w, y, h);
    WithHealthConcat(c, w, h);
    forall g: Health
      ensures WithHealth(WithHealth(ls, g), h) == (if g == h then WithHealth(ls, g) else [])
    {
      var s := WithHealth(ls, g);
      WithHealthAll(ls, g);
      if g == h { WithHealthOnly(s, h); } else { WithHealthNone(s, h); }
    }
  }

  lemma {:induction false} DescendingSplits<R>(r: seq<Listed<R>>)
    requires DescendingHealth(r)
    ensures r == WithHealth(r, Critical) + WithHealth(r, Warning) + WithHealth(r, Healthy)
  {
    if r != [] {
      var x, rest := r[0], r[1..];
      DescendingTail(r);
      DescendingSplits(rest);
      assert r == [x] + rest;
      match x.health {
        case Critical => SplitsCritical(x, rest);
        case Warning => WithHealthNone(rest, Critical); SplitsWarning(x, rest);
        case Healthy => WithHealthNone(rest, Critical); WithHealthNone(rest, Warning); SplitsHealthy(x, rest);
      }
    }
  }

  lemma DescendingTail<R>(r: seq<Listed<R>>)
    requires DescendingHealth(r) && r != []
    ensures DescendingHealth(r[1..])
    ensures forall k :: 0 <= k < |r| - 1 ==> Rank(r[1..][k].health) <= Rank(r[0].health)
  {
    forall k | 0 <= k < |r| - 1 ensures Rank(r[1..][k].health) <= Rank(r[0].health) {
      assert r[1..][k] == r[k + 1];
    }
  }

  lemma SplitsCritical<R>(x: Listed<R>, rest: seq<Listed<R>>)
    requires x.health == Critical
    requires rest == WithHealth(rest, Critical) + WithHealth(rest, Warning) + WithHealth(rest, Healthy)
    ensures [x] + rest == WithHealth([x] + rest, Critical) + WithHealth([x] + rest, Warning) + WithHealth([x] + rest, Healthy)
  {
    var r := [x] + rest;
    assert r[1..] == rest;
    var c, w, y := WithHealth(rest, Critical), WithHealth(rest, Warning), WithHealth(rest, Healthy);
    assert WithHealth(r, Critical) == [x] + c;
    assert WithHealth(r, Warning) == w;
    assert WithHealth(r, Healthy) == y;
    assert [x] + c + w + y == [x] + (c + w + y);
  }

  lemma SplitsWarning<R>(x: Listed<R>, rest: seq<Listed<R>>)
    requires x.health == Warning && WithHealth(rest, Critical) == []
    requires rest == WithHealth(rest, Critical) + WithHealth(rest, Warning) + WithHealth(rest, Healthy)
    ensures [x] + rest == WithHealth([x] + rest, Critical) + WithHealth([x] + rest, Warning) + WithHealth([x] + rest, Healthy)
  {
    var r := [x] + rest;
    assert r[1..] == rest;
    var w, y := WithHealth(rest, Warning), WithHealth(rest, Healthy);
    assert rest == w + y;
    assert WithHealth(r, Critical) == [];
    assert WithHealth(r, Warning) == [x] + w;
    assert WithHealth(r, Healthy) == y;
    assert [x] + w + y == [x] + (w + y);
  }

  lemma SplitsHealthy<R>(x: Listed<R>, rest: seq<Listed<R>>)
    requires x.health == Healthy && WithHealth(rest, Critical) == [] && WithHealth(rest, Warning) == []
    requires rest == WithHealth(rest, Critical) + WithHealth(rest, Warning) + WithHealth(rest, Healthy)
    ensures [x] + rest == WithHealth([x] + rest, Critical) + WithHealth([x] + rest, Warning) + WithHealth([x] + rest, Healthy)
  {
    var r := [x] + rest;
    assert r[1..] == rest;
    assert rest == WithHealth(rest, Healthy);
    assert WithHealth(r, Critical) == [];
    assert WithHealth(r, Warning) == [];
    assert WithHealth(r, Healthy) == [x] + rest;
  }

  /**
   * The sorted listing is the only ordering that puts worse health first and
   * keeps the order of rows of equal health: what a stable sort gives.
   */
  lemma StableSortUnique<R>(ls: seq<Listed<R>>, r: seq<Listed<R>>)
    requires DescendingHealth(r)
    requires forall h: Health :: WithHealth(r, h) == WithHealth(ls, h)
    ensures r == SortByHealth(ls)
  {
    DescendingSplits(r);
    assert WithHealth(r, Critical) == WithHealth(ls, Critical);
    assert WithHealth(r, Warning) == WithHealth(ls, Warning);
    assert WithHealth(r, Healthy) == WithHealth(ls, Healthy);
  }

  /** The colour that goes with each sorted row is still the colour of that row's health. */
  lemma SortKeepsColoursPaired<R>(ls: seq<Listed<R>>, colourOf: Health -> string)
    requires forall k :: 0 <= k < |ls| ==> ls[k].colour == colourOf(ls[k].health)
    ensures var s := SortByHealth(ls); forall k :: 0 <= k < |s| ==> s[k].colour == colourOf(s[k].health)
  {
    var s := SortByHealth(ls);
    forall k | 0 <= k < |s| ensures s[k].colour == colourOf(s[k].health) {
      assert s[k] in ls by { assert s[k] in s; SortByHealthSorts(ls); assert s[k] in multiset(ls); }
    }
  }

  /** The listed rows of all users, in query order, before sorting. */
  function Listing(users: seq<UsageUser>, format: string, colourOf: Health -> string): (r: seq<Listed<UsageRow>>)
    requires forall k :: 0 <= k < |users| ==> Listable(users[k])
    ensures |r| == |users|
    ensures forall k :: 0 <= k < |users| ==> r[k] == ListedOf(users[k], format, colourOf)
  {
    seq(|users|, k requires 0 <= k < |users| => ListedOf(users[k], format, colourOf))
  }

  /**
   * The body of `quota-usage` once the users are fetched: the rows and their
   * colours, worst health first; `None` when some user cannot be read.
   * `format` is `"raw"` or `"human_readable"`.
   */
  method ListQuotaUsage(users: seq<UsageUser>, format: string, colourOf: Health -> string)
    returns (result: Option<(seq<UsageRow>, seq<string>)>)
    ensures result.None? <==> exists k :: 0 <= k < |users| && !Listable(users[k])
    ensures result.Some? ==>
      var s := SortByHealth(Listing(users, format, colourOf));
      && |s| == |users|
      && result.value.0 == RowsOf(s) && result.value.1 == ColoursOf(s)
  {
    var listed: seq<Listed<UsageRow>> := [];
    var i := 0;
    while i < |users|
      invariant 0 <= i <= |users|
      invariant forall k :: 0 <= k < i ==> Listable(users[k])
      invariant |listed| == i
      invariant forall k :: 0 <= k < i ==> listed[k] == ListedOf(users[k], format, colourOf)
    {
      if !Listable(users[i]) {
        return None;
      }
      listed := listed + [ListedOf(users[i], format, colourOf)];
      i := i + 1;
    }
    assert listed == Listing(users, format, colourOf);
    SortByHealthLength(listed);
    if listed != [] {
      listed := SortByHealth(listed);
    }
    result := Some((RowsOf(listed), ColoursOf(listed)));
  }

  /** The rows and the colours of a listing, as `zip(*...)` separates them. */
  function RowsOf<R>(ls: seq<Listed<R>>): (r: seq<R>)
    ensures |r| == |ls| && forall k :: 0 <= k < |ls| ==> r[k] == ls[k].row
  {
    seq(|ls|, k requires 0 <= k < |ls| => ls[k].row)
  }

  function ColoursOf<R>(ls: seq<Listed<R>>): (r: seq<string>)
    ensures |r| == |ls| && forall k :: 0 <= k < |ls| ==> r[k] == ls[k].colour
  {
    seq(|ls|, k requires 0 <= k < |ls| => ls[k].colour)
  }

  lemma SortByHealthLength<R>(ls: seq<Listed<R>>)
    ensures |SortByHealth(ls)| == |ls|
    ensures ls == [] ==> SortByHealth(ls) == []
  {
    SortByHealthSorts(ls);
    assert |multiset(SortByHealth(ls))| == |multiset(ls)|;
  }

}
