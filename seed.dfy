/**
 * `scripts/seed-categories.ts`: the fixed taxonomy of fifteen categories,
 * upserted one by one on conflict `name`. `fails(i)` says whether the
 * upsert of entry i returns an error; an error is logged and the loop
 * goes on with the next entry.
 */
module Seed {
  import opened Seqs
  import opened Catalog

  datatype CategorySeed = CategorySeed(name: string, description: string)

  const Taxonomy: seq<CategorySeed> := [
    CategorySeed("Overtake", "Radio messages about overtaking maneuvers"),
    CategorySeed("Strategy", "Pit stop strategy and race tactics"),
    CategorySeed("Rage", "Frustrated or angry radio messages"),
    CategorySeed("Celebration", "Victory celebrations and achievements"),
    CategorySeed("Team Orders", "Team instructions to drivers"),
    CategorySeed("Technical Issue", "Car problems and technical difficulties"),
    CategorySeed("Safety Car", "Safety car and VSC related messages"),
    CategorySeed("Pit Stop", "Pit stop communications"),
    CategorySeed("Weather", "Weather conditions and tire choices"),
    CategorySeed("Incident", "Crashes, penalties, and incidents"),
    CategorySeed("Funny", "Humorous or entertaining moments"),
    CategorySeed("Motivational", "Encouraging and motivational messages"),
    CategorySeed("Complaint", "Complaints about other drivers or conditions"),
    CategorySeed("Information", "General race information and updates"),
    CategorySeed("Viral", "Super popular and widely shared radio moments")
  ]

  function Names(entries: seq<CategorySeed>): (r: seq<string>)
    ensures |r| == |entries| && forall i :: 0 <= i < |r| ==> r[i] == entries[i].name
  {
    seq(|entries|, i requires 0 <= i < |entries| => entries[i].name)
  }

  /** The taxonomy has fifteen entries under fifteen different names. */
  lemma TaxonomyDistinct()
    ensures |Taxonomy| == 15 && NoDups(Names(Taxonomy))
  {
    var ns := Names(Taxonomy);
    forall i, j | 0 <= i < j < |ns|
      ensures ns[i] != ns[j]
    {
      // Names that share a first letter differ in length.
      assert ns[i][0] != ns[j][0] || |ns[i]| != |ns[j]|;
    }
  }

  /** The categories after the first `i` upserts; a failed one changes nothing. */
  function SeedAfter(db: Db, entries: seq<CategorySeed>, fails: nat -> bool, i: nat): Db
    requires i <= |entries|
  {
    if i == 0 then db
    else
      var d := SeedAfter(db, entries, fails, i - 1);
      if fails(i - 1) then d else UpsertCategory(d, entries[i - 1].name, entries[i - 1].description)
  }

  /** The names whose upsert failed among the first `i`, in order: the error lines. */
  function FailedNames(entries: seq<CategorySeed>, fails: nat -> bool, i: nat): seq<string>
    requires i <= |entries|
  {
    if i == 0 then []
    else FailedNames(entries, fails, i - 1) + (if fails(i - 1) then [entries[i - 1].name] else [])
  }

  /** The upsert loop over `entries`; it returns the names it reported an error for. */
  method UpsertEach(store: Store, entries: seq<CategorySeed>, fails: nat -> bool) returns (failed: seq<string>)
    modifies store
    ensures store.Snapshot() == SeedAfter(old(store.Snapshot()), entries, fails, |entries|)
    ensures failed == FailedNames(entries, fails, |entries|)
  {
    ghost var db0 := store.Snapshot();
    failed := [];
    for i := 0 to |entries|
      invariant store.Snapshot() == SeedAfter(db0, entries, fails, i)
      invariant failed == FailedNames(entries, fails, i)
    {
      var entry := entries[i];
      var ok := store.UpsertCategoryRow(entry.name, entry.description, fails(i));
      if !ok {
        failed := failed + [entry.name];
      }
    }
  }

  /** `seedCategories()`: the upsert loop over the taxonomy. */
  method SeedCategories(store: Store, fails: nat -> bool) returns (failed: seq<string>)
    modifies store
    ensures store.Snapshot() == SeedAfter(old(store.Snapshot()), Taxonomy, fails, |Taxonomy|)
    ensures failed == FailedNames(Taxonomy, fails, |Taxonomy|)
  {
    failed := UpsertEach(store, Taxonomy, fails);
  }

  /** The names among the first `i` entries whose upsert succeeded. */
  function SeededNames(entries: seq<CategorySeed>, fails: nat -> bool, i: nat): (r: set<string>)
    requires i <= |entries|
    ensures forall n :: n in r <==> exists j :: 0 <= j < i && !fails(j) && entries[j].name == n
  {
    if i == 0 then {}
    else
      var prev := SeededNames(entries, fails, i - 1);
      if fails(i - 1) then prev else prev + {entries[i - 1].name}
  }

  /**
   * Seeding touches only the categories: the category names become the old
   * ones plus the seeded ones, every other category row stays as it was,
   * every existing row keeps its id, and the store stays valid.
   */
  lemma {:induction false} SeedShape(db: Db, entries: seq<CategorySeed>, fails: nat -> bool, i: nat)
    requires i <= |entries|
    ensures var r := SeedAfter(db, entries, fails, i);
      && r == db.(categories := r.categories, nextCategoryId := r.nextCategoryId)
      && r.categories.Keys == db.categories.Keys + SeededNames(entries, fails, i)
      && (forall n :: n in db.categories && n !in SeededNames(entries, fails, i) ==> r.categories[n] == db.categories[n])
      && (forall n :: n in db.categories ==> r.categories[n].id == db.categories[n].id)
      && (Valid(db) ==> Valid(r))
  {
    if i > 0 {
      SeedShape(db, entries, fails, i - 1);
    }
  }

  /**
   * With distinct names, every entry whose upsert succeeded ends up under its
   * name with its description.
   */
  lemma {:induction false} SeedDescriptions(db: Db, entries: seq<CategorySeed>, fails: nat -> bool, i: nat)
    requires i <= |entries| && NoDups(Names(entries))
    ensures var r := SeedAfter(db, entries, fails, i);
      forall j :: 0 <= j < i && !fails(j) ==>
        entries[j].name in r.categories
        && r.categories[entries[j].name] == r.categories[entries[j].name].(name := entries[j].name, description := entries[j].description)
  {
    if i > 0 {
      SeedDescriptions(db, entries, fails, i - 1);
      var d := SeedAfter(db, entries, fails, i - 1);
      forall j | 0 <= j < i - 1 && !fails(j)
        ensures entries[j].name != entries[i - 1].name
      {
        assert Names(entries)[j] != Names(entries)[i - 1];
      }
    }
  }

  /** An upsert that repeats what a row already holds changes nothing. */
  lemma UpsertSame(db: Db, name: string, description: string)
    requires name in db.categories && db.categories[name].name == name && db.categories[name].description == description
    ensures UpsertCategory(db, name, description) == db
  {
    assert db.categories[name := db.categories[name]] == db.categories;
  }

  /** Every entry is already present with its name and description. */
  predicate Seeded(db: Db, entries: seq<CategorySeed>) {
    forall j :: 0 <= j < |entries| ==>
      entries[j].name in db.categories
      && db.categories[entries[j].name].name == entries[j].name
      && db.categories[entries[j].name].description == entries[j].description
  }

  /** Running the seed over a store that already holds every entry changes nothing, whichever upserts fail. */
  lemma {:induction false} SeedOverSeeded(db: Db, entries: seq<CategorySeed>, fails: nat -> bool, i: nat)
    requires i <= |entries| && Seeded(db, entries)
    ensures SeedAfter(db, entries, fails, i) == db
  {
    if i > 0 {
      SeedOverSeeded(db, entries, fails, i - 1);
      if !fails(i - 1) {
        UpsertSame(db, entries[i - 1].name, entries[i - 1].description);
      }
    }
  }

  /**
   * The script is idempotent: after a run in which no upsert failed, a
   * second run leaves the store as it is, whatever its errors.
   */
  lemma SeedIdempotent(db: Db, fails: nat -> bool)
    ensures var once := SeedAfter(db, Taxonomy, _ => false, |Taxonomy|);
      SeedAfter(once, Taxonomy, fails, |Taxonomy|) == once
  {
    var once := SeedAfter(db, Taxonomy, _ => false, |Taxonomy|);
    TaxonomyDistinct();
    SeedDescriptions(db, Taxonomy, _ => false, |Taxonomy|);
    SeedOverSeeded(once, Taxonomy, fails, |Taxonomy|);
  }

  /** With distinct names, a run in which no upsert failed adds exactly the entries' names, each with its description. */
  lemma SeedAllOf(db: Db, entries: seq<CategorySeed>)
    requires NoDups(Names(entries))
    ensures var r := SeedAfter(db, entries, _ => false, |entries|);
      && Seeded(r, entries)
      && r.categories.Keys == db.categories.Keys + set j | 0 <= j < |entries| :: entries[j].name
  {
    SeedDescriptions(db, entries, _ => false, |entries|);
    SeedShape(db, entries, _ => false, |entries|);
  }

  /** After a run in which no upsert failed, all fifteen categories exist with the taxonomy's descriptions. */
  lemma SeedComplete(db: Db)
    ensures var r := SeedAfter(db, Taxonomy, _ => false, |Taxonomy|);
      && Seeded(r, Taxonomy)
      && r.categories.Keys == db.categories.Keys + set j | 0 <= j < |Taxonomy| :: Taxonomy[j].name
  {
    TaxonomyDistinct();
    SeedAllOf(db, Taxonomy);
  }
}
