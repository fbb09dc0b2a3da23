/** The template seeding script: for each of the three stock templates, in
    order, look for a row with its name and insert it when there is none.
    The first query that fails ends the run with exit code 1. */
module SeedTemplates {
  import opened Wrappers
  import opened Records
  import opened Database

  datatype Seed = Seed(name: string, subject: string, body: string)

  /** The three stock templates. Their HTML bodies are inputs here. */
  function StockSeeds(welcome: string, reset: string, newsletter: string): (s: seq<Seed>)
    ensures |s| == 3
  {
    [ Seed("Welcome Email", "Welcome to {{company_name}}, {{name}}!", welcome),
      Seed("Password Reset", "Reset Your Password", reset),
      Seed("Newsletter", "Your Weekly Newsletter from {{company_name}}", newsletter) ]
  }

  predicate HasName(templates: seq<Template>, name: string) {
    exists i :: 0 <= i < |templates| && templates[i].name == name
  }

  /** One pass of the loop body, on the table's value. */
  function InsertIfAbsent(templates: seq<Template>, s: Seed): (r: seq<Template>)
    ensures HasName(r, s.name)
    ensures HasName(templates, s.name) ==> r == templates
    ensures !HasName(templates, s.name) ==>
            r == templates + [Template(|templates| + 1, s.name, s.subject, s.body)]
  {
    if HasName(templates, s.name) then templates
    else
      var r := templates + [Template(|templates| + 1, s.name, s.subject, s.body)];
      assert r[|templates|].name == s.name;
      r
  }

  /** The table after the loop has handled `seeds`, in order. */
  function SeedAll(templates: seq<Template>, seeds: seq<Seed>): (r: seq<Template>)
    ensures templates <= r
    decreases |seeds|
  {
    if seeds == [] then templates
    else InsertIfAbsent(SeedAll(templates, seeds[..|seeds| - 1]), seeds[|seeds| - 1])
  }

  /** Seeding only appends: existing rows, same-name ones included, stay
      as they were, and every seeded name is then present. */
  lemma {:induction false} SeedAllAppends(templates: seq<Template>, seeds: seq<Seed>)
    ensures |templates| <= |SeedAll(templates, seeds)|
    ensures SeedAll(templates, seeds)[..|templates|] == templates
    ensures forall k :: 0 <= k < |seeds| ==> HasName(SeedAll(templates, seeds), seeds[k].name)
    decreases |seeds|
  {
    if seeds != [] {
      var init := seeds[..|seeds| - 1];
      var before := SeedAll(templates, init);
      SeedAllAppends(templates, init);
      var after := SeedAll(templates, seeds);
      assert after == InsertIfAbsent(before, seeds[|seeds| - 1]);
      assert after[..|before|] == before;
      assert after[..|templates|] == before[..|templates|];
      forall k | 0 <= k < |seeds|
        ensures HasName(after, seeds[k].name)
      {
        if k < |seeds| - 1 {
          assert seeds[k] == init[k];
          var i :| 0 <= i < |before| && before[i].name == seeds[k].name;
          assert after[i] == before[i];
        }
      }
    }
  }

  /** Seeds whose names are all present insert nothing. */
  lemma {:induction false} SeedAllPresent(templates: seq<Template>, seeds: seq<Seed>)
    requires forall k :: 0 <= k < |seeds| ==> HasName(templates, seeds[k].name)
    ensures SeedAll(templates, seeds) == templates
    decreases |seeds|
  {
    if seeds != [] {
      SeedAllPresent(templates, seeds[..|seeds| - 1]);
    }
  }

  /** Running the seed twice leaves the table as one run does. */
  lemma SeedIdempotent(templates: seq<Template>, seeds: seq<Seed>)
    ensures SeedAll(SeedAll(templates, seeds), seeds) == SeedAll(templates, seeds)
  {
    SeedAllAppends(templates, seeds);
    SeedAllPresent(SeedAll(templates, seeds), seeds);
  }

  /** On an empty table the three stock templates get ids 1, 2 and 3, in
      the listed order. */
  lemma SeedStockIntoEmpty(welcome: string, reset: string, newsletter: string)
    ensures var s := StockSeeds(welcome, reset, newsletter);
            SeedAll([], s) ==
              [ Template(1, s[0].name, s[0].subject, welcome),
                Template(2, s[1].name, s[1].subject, reset),
                Template(3, s[2].name, s[2].subject, newsletter) ]
  {
    var s := StockSeeds(welcome, reset, newsletter);
    assert s[..0] == [] && s[..1][..0] == [] && s[..2][..1] == s[..1] && s[..3] == s && s[..3][..2] == s[..2];
    var t1 := SeedAll([], s[..1]);
    assert SeedAll([], s[..1][..0]) == [];
    assert !HasName([], s[0].name);
    assert t1 == InsertIfAbsent([], s[0]);
    assert t1 == [Template(1, s[0].name, s[0].subject, welcome)];
    var t2 := SeedAll([], s[..2]);
    assert s[1].name[0] == 'P' && t1[0].name[0] == 'W';
    assert !HasName(t1, s[1].name);
    assert t2 == t1 + [Template(2, s[1].name, s[1].subject, reset)];
    assert s[2].name[0] == 'N' && t2[1].name[0] == 'P';
    assert !HasName(t2, s[2].name);
  }

  /** Serial template ids survive seeding. */
  lemma {:induction false} SeedAllKeepsIds(templates: seq<Template>, seeds: seq<Seed>)
    requires forall i :: 0 <= i < |templates| ==> templates[i].id == i + 1
    ensures forall i :: 0 <= i < |SeedAll(templates, seeds)| ==> SeedAll(templates, seeds)[i].id == i + 1
    decreases |seeds|
  {
    if seeds != [] {
      var before := SeedAll(templates, seeds[..|seeds| - 1]);
      SeedAllKeepsIds(templates, seeds[..|seeds| - 1]);
      assert forall i :: 0 <= i < |before| ==> before[i].id == i + 1;
      var r := SeedAll(templates, seeds);
      assert r == InsertIfAbsent(before, seeds[|seeds| - 1]);
      if HasName(before, seeds[|seeds| - 1].name) {
        assert r == before;
      } else {
        assert r[|before|].id == |before| + 1;
        assert forall i :: 0 <= i < |before| ==> r[i] == before[i];
      }
    }
  }

  /** The script. `selectFails(i)` and `insertFails(i)` say whether the
      lookup or the insert for the i-th seed throws. The exit code is 0
      when every seed was handled; otherwise it is 1 and the table holds
      what the seeds before the failing one inserted. */
  method RunSeed(db: Db, seeds: seq<Seed>, selectFails: nat -> bool, insertFails: nat -> bool)
    returns (exitCode: int, ghost handled: nat)
    requires db.Valid()
    modifies db
    ensures db.Valid()
    ensures db.users == old(db.users) && db.logs == old(db.logs)
    ensures db.nextLogId == old(db.nextLogId) && db.clock == old(db.clock)
    ensures handled <= |seeds|
    ensures db.templates == SeedAll(old(db.templates), seeds[..handled])
    ensures exitCode == 0 <==> handled == |seeds|
    ensures exitCode == 0 || exitCode == 1
    ensures exitCode == 1 ==>
            var t := SeedAll(old(db.templates), seeds[..handled]);
            selectFails(handled) || (!HasName(t, seeds[handled].name) && insertFails(handled))
  {
    ghost var t0 := db.templates;
    var i := 0;
    while i < |seeds|
      invariant 0 <= i <= |seeds|
      invariant db.Valid()
      invariant db.users == old(db.users) && db.logs == old(db.logs)
      invariant db.nextLogId == old(db.nextLogId) && db.clock == old(db.clock)
      invariant db.templates == SeedAll(t0, seeds[..i])
    {
      if selectFails(i) {
        return 1, i;
      }
      var present := HasName(db.templates, seeds[i].name);
      if !present {
        if insertFails(i) {
          return 1, i;
        }
        db.templates := db.templates + [Template(|db.templates| + 1, seeds[i].name, seeds[i].subject, seeds[i].body)];
      }
      assert seeds[..i + 1][..i] == seeds[..i];
      i := i + 1;
    }
    assert seeds[..i] == seeds;
    return 0, i;
  }
}
