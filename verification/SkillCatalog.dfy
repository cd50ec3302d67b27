/**
 The skill catalog (internal/agent/skill_catalog.go): installing and removing managed skills as sequences of file
 steps, any of which may be the last one taken.  Writing a file is two steps, as `os.WriteFile` truncates first.
 The checksum is an arbitrary function of the file's bytes.
 */
module SkillCatalog {
  import opened Wrappers
  import opened Ordering
  import opened SkillIds
  import Text

  datatype InstalledSkill = InstalledSkill(id: string, displayName: string, sourcePath: string, managedPath: string,
                                           checksum: string, installedAt: string)

  /** A file holds a skill's markdown, a manifest, or neither: torn by a write that did not end. */
  datatype File = Markdown(data: string) | Manifest(skills: seq<InstalledSkill>) | Torn

  type Files = map<string, File>

  datatype FileStep = Truncate(path: string) | Write(path: string, file: File) | Delete(path: string)

  function Do(files: Files, s: FileStep): Files {
    match s
    case Truncate(path) => files[path := Torn]
    case Write(path, file) => files[path := file]
    case Delete(path) => files - {path}
  }

  function DoAll(files: Files, steps: seq<FileStep>): Files {
    if steps == [] then files else Do(DoAll(files, steps[..|steps| - 1]), steps[|steps| - 1])
  }

  /** A missing manifest is an empty one; one that does not parse is an error. */
  function Load(files: Files): Option<seq<InstalledSkill>> {
    if CATALOG_PATH !in files then Some([])
    else
      match files[CATALOG_PATH]
      case Manifest(skills) => Some(skills)
      case Markdown(_) => None
      case Torn => None
  }

  // ----- the invariant

  /** The skill's managed file is there and is the one its checksum was taken of. */
  ghost predicate Backed(files: Files, s: InstalledSkill, hash: string -> string) {
    && IsSlug(s.id) && s.managedPath == ManagedPath(s.id)
    && s.managedPath in files && files[s.managedPath].Markdown? && hash(files[s.managedPath].data) == s.checksum
  }

  ghost predicate AllBacked(files: Files, skills: seq<InstalledSkill>, hash: string -> string) {
    forall k :: 0 <= k < |skills| ==> Backed(files, skills[k], hash)
  }

  function IdOf(s: InstalledSkill): string {
    s.id
  }

  ghost predicate UniqueIds(skills: seq<InstalledSkill>) {
    DistinctBy(skills, IdOf)
  }

  ghost predicate Inv(files: Files, hash: string -> string) {
    Load(files).Some? ==> UniqueIds(Load(files).value) && AllBacked(files, Load(files).value, hash)
  }

  /** A step outside the catalog and every listed skill's file leaves the listed skills backed. */
  lemma StepElsewhere(files: Files, s: FileStep, skills: seq<InstalledSkill>, hash: string -> string)
    requires AllBacked(files, skills, hash)
    requires forall k :: 0 <= k < |skills| ==> skills[k].managedPath != s.path
    ensures AllBacked(Do(files, s), skills, hash)
  {
    hide ManagedPath, IsSlug;
  }

  lemma StepOnCatalog(files: Files, s: FileStep, skills: seq<InstalledSkill>, hash: string -> string)
    requires AllBacked(files, skills, hash) && s.path == CATALOG_PATH
    ensures AllBacked(Do(files, s), skills, hash)
  {
    hide ManagedPath, IsSlug;
    forall k | 0 <= k < |skills| ensures skills[k].managedPath != CATALOG_PATH {
      assert Backed(files, skills[k], hash);
      DirectoriesAreApart(skills[k].id, skills[k].id);
    }
    StepElsewhere(files, s, skills, hash);
  }

  // ----- saving: the manifest is sorted by ID

  predicate IdBefore(a: InstalledSkill, b: InstalledSkill) {
    Text.LexLess(a.id, b.id)
  }

  lemma IdBeforeIsWeakOrder()
    ensures WeakOrder(IdBefore)
  {
    hide Text.LexLess;
    forall x, y | IdBefore(x, y) ensures !IdBefore(y, x) { Text.LexAsymmetric(x.id, y.id); }
    forall x, y, z | IdBefore(x, z) ensures IdBefore(x, y) || IdBefore(y, z) {
      Text.LexNegativelyTransitive(x.id, y.id, z.id);
    }
  }

  lemma SortedStaysBacked(files: Files, skills: seq<InstalledSkill>, sorted: seq<InstalledSkill>,
                          hash: string -> string)
    requires AllBacked(files, skills, hash) && multiset(skills) == multiset(sorted)
    ensures AllBacked(files, sorted, hash)
  {
    hide Backed;
    SameElements(skills, sorted);
    forall k | 0 <= k < |sorted| ensures Backed(files, sorted[k], hash) {
      assert sorted[k] in skills;
    }
  }

  // ----- installing

  function InstallSteps(skill: InstalledSkill, data: string, sorted: seq<InstalledSkill>): seq<FileStep> {
    [Truncate(skill.managedPath), Write(skill.managedPath, Markdown(data)),
     Truncate(CATALOG_PATH), Write(CATALOG_PATH, Manifest(sorted))]
  }

  lemma FourSteps(files: Files, a: FileStep, b: FileStep, c: FileStep, d: FileStep)
    ensures var s := [a, b, c, d];
            && DoAll(files, s[..0]) == files && DoAll(files, s[..1]) == Do(files, a)
            && DoAll(files, s[..2]) == Do(Do(files, a), b) && DoAll(files, s[..3]) == Do(Do(Do(files, a), b), c)
            && DoAll(files, s) == DoAll(files, s[..4]) == Do(Do(Do(Do(files, a), b), c), d)
  {
    var s := [a, b, c, d];
    assert s[..1] == [a] && s[..2] == [a, b] && s[..3] == [a, b, c] && s[..4] == s;
    assert s[..1][..0] == [] && s[..2][..1] == s[..1] && s[..3][..2] == s[..2] && s[..4][..3] == s[..3];
  }

  /** The new skill's file is no listed skill's. */
  lemma NewPathIsFree(files: Files, skills: seq<InstalledSkill>, skill: InstalledSkill, hash: string -> string)
    requires AllBacked(files, skills, hash) && forall k :: 0 <= k < |skills| ==> skills[k].id != skill.id
    requires IsSlug(skill.id) && skill.managedPath == ManagedPath(skill.id)
    ensures forall k :: 0 <= k < |skills| ==> skills[k].managedPath != skill.managedPath
    ensures skill.managedPath != CATALOG_PATH
  {
    hide ManagedPath, IsSlug, SkillDir;
    DirectoriesAreApart(skill.id, skill.id);
    forall k | 0 <= k < |skills| ensures skills[k].managedPath != skill.managedPath {
      assert Backed(files, skills[k], hash);
      DirectoriesAreApart(skill.id, skills[k].id);
    }
  }

  lemma NewFileBacks(files: Files, skills: seq<InstalledSkill>, skill: InstalledSkill, data: string,
                     hash: string -> string)
    requires AllBacked(Do(files, Write(skill.managedPath, Markdown(data))), skills, hash)
    requires IsSlug(skill.id) && skill.managedPath == ManagedPath(skill.id) && skill.checksum == hash(data)
    ensures AllBacked(Do(files, Write(skill.managedPath, Markdown(data))), skills + [skill], hash)
  {
    hide ManagedPath, IsSlug;
  }

  lemma NewIdIsFree(skills: seq<InstalledSkill>, skill: InstalledSkill)
    requires UniqueIds(skills) && forall i :: 0 <= i < |skills| ==> skills[i].id != skill.id
    ensures UniqueIds(skills + [skill])
  {}

  /**
   After each of its file steps an installation leaves every skill that was listed backed by its own file.  The catalog
   can be read except between its truncation and its writing, and lists the old skills before and the new one too after.
   */
  lemma InstallIsSafeAtEveryStep(files: Files, skills: seq<InstalledSkill>, sorted: seq<InstalledSkill>,
                                 skill: InstalledSkill, data: string, hash: string -> string, k: nat)
    requires Load(files) == Some(skills) && UniqueIds(skills) && AllBacked(files, skills, hash)
    requires forall i :: 0 <= i < |skills| ==> skills[i].id != skill.id
    requires IsSlug(skill.id) && skill.managedPath == ManagedPath(skill.id) && skill.checksum == hash(data)
    requires multiset(sorted) == multiset(skills + [skill])
    requires k <= 4
    ensures AllBacked(DoAll(files, InstallSteps(skill, data, sorted)[..k]), skills, hash)
    ensures Load(DoAll(files, InstallSteps(skill, data, sorted)[..k]))
            == if k < 3 then Some(skills) else if k == 3 then None else Some(sorted)
    ensures k == 4 ==>
              UniqueIds(sorted) && AllBacked(DoAll(files, InstallSteps(skill, data, sorted)[..k]), sorted, hash)
  {
    hide ManagedPath, IsSlug, Backed, AllBacked, UniqueIds, MapSeq;
    NewPathIsFree(files, skills, skill, hash);
    var path := skill.managedPath;
    var f1 := Do(files, Truncate(path));
    var f2 := Do(f1, Write(path, Markdown(data)));
    var f3 := Do(f2, Truncate(CATALOG_PATH));
    FourSteps(files, Truncate(path), Write(path, Markdown(data)), Truncate(CATALOG_PATH),
              Write(CATALOG_PATH, Manifest(sorted)));
    StepElsewhere(files, Truncate(path), skills, hash);
    StepElsewhere(f1, Write(path, Markdown(data)), skills, hash);
    NewFileBacks(f1, skills, skill, data, hash);
    NewIdIsFree(skills, skill);
    StepOnCatalog(f2, Truncate(CATALOG_PATH), skills, hash);
    StepOnCatalog(f3, Write(CATALOG_PATH, Manifest(sorted)), skills, hash);
    StepOnCatalog(f2, Truncate(CATALOG_PATH), skills + [skill], hash);
    DistinctPermutes(skills + [skill], sorted, IdOf);
    UniqueByIds(sorted);
    SortedStaysBacked(f3, skills + [skill], sorted, hash);
    StepOnCatalog(f3, Write(CATALOG_PATH, Manifest(sorted)), sorted, hash);
  }

  lemma UniqueByIds(skills: seq<InstalledSkill>)
    ensures UniqueIds(skills) <==> DistinctBy(skills, IdOf)
  {}

  // ----- removing

  /** The manifest is rewritten, then the files of the skill's directory go, in whatever order. */
  function RemoveSteps(sorted: seq<InstalledSkill>, doomed: seq<string>): seq<FileStep> {
    [Truncate(CATALOG_PATH), Write(CATALOG_PATH, Manifest(sorted))] + Deletions(doomed)
  }

  function Deletions(doomed: seq<string>): (steps: seq<FileStep>)
    ensures |steps| == |doomed|
    ensures forall k :: 0 <= k < |doomed| ==> steps[k] == Delete(doomed[k])
  {
    seq(|doomed|, k requires 0 <= k < |doomed| => Delete(doomed[k]))
  }

  lemma {:induction false} DeletionsAreSafe(files: Files, skills: seq<InstalledSkill>, id: string, doomed: seq<string>,
                                            hash: string -> string, k: nat)
    requires AllBacked(files, skills, hash) && IsSlug(id)
    requires forall i :: 0 <= i < |skills| ==> skills[i].id != id
    requires forall i :: 0 <= i < |doomed| ==> Inside(doomed[i], SkillDir(id))
    requires k <= |doomed|
    ensures AllBacked(DoAll(files, Deletions(doomed)[..k]), skills, hash)
    ensures Load(DoAll(files, Deletions(doomed)[..k])) == Load(files)
  {
    hide ManagedPath, IsSlug, SkillDir, Inside, AllBacked, Load, Do;
    if k > 0 {
      DeletionsAreSafe(files, skills, id, doomed, hash, k - 1);
      var steps := Deletions(doomed);
      var before := DoAll(files, steps[..k - 1]);
      assert steps[..k][..k - 1] == steps[..k - 1];
      DeletionIsSafe(before, skills, id, doomed[k - 1], hash);
    }
  }

  lemma DeletionIsSafe(files: Files, skills: seq<InstalledSkill>, id: string, path: string, hash: string -> string)
    requires AllBacked(files, skills, hash) && IsSlug(id)
    requires forall i :: 0 <= i < |skills| ==> skills[i].id != id
    requires Inside(path, SkillDir(id))
    ensures AllBacked(Do(files, Delete(path)), skills, hash) && Load(Do(files, Delete(path))) == Load(files)
  {
    hide ManagedPath, IsSlug, SkillDir, Inside;
    DirectoriesAreApart(id, id);
    forall k | 0 <= k < |skills| ensures skills[k].managedPath != path {
      assert Backed(files, skills[k], hash);
      DirectoriesAreApart(id, skills[k].id);
    }
    StepElsewhere(files, Delete(path), skills, hash);
  }

  lemma {:induction false} DoAllConcat(files: Files, a: seq<FileStep>, b: seq<FileStep>)
    ensures DoAll(files, a + b) == DoAll(DoAll(files, a), b)
  {
    if b == [] {
      assert a + b == a;
    } else {
      var n := |b| - 1;
      DoAllConcat(files, a, b[..n]);
      assert (a + b)[..|a| + n] == a + b[..n];
    }
  }

  lemma RemovePrefix(files: Files, sorted: seq<InstalledSkill>, doomed: seq<string>, k: nat)
    requires k <= 2 + |doomed|
    ensures var f1 := Do(files, Truncate(CATALOG_PATH));
            var f2 := Do(f1, Write(CATALOG_PATH, Manifest(sorted)));
            DoAll(files, RemoveSteps(sorted, doomed)[..k])
            == if k == 0 then files else if k == 1 then f1 else DoAll(f2, Deletions(doomed)[..k - 2])
  {
    hide Do;
    var steps := RemoveSteps(sorted, doomed);
    var head := [Truncate(CATALOG_PATH), Write(CATALOG_PATH, Manifest(sorted))];
    assert head[..1] == [Truncate(CATALOG_PATH)] && head[..1][..0] == [];
    if k < 2 {
      assert k == 0 ==> steps[..k] == [];
      assert k == 1 ==> steps[..k] == head[..1];
    } else {
      assert steps[..k] == head + Deletions(doomed)[..k - 2];
      assert DoAll(files, head) == Do(DoAll(files, head[..1]), head[1]);
      assert DoAll(files, head[..1]) == Do(files, head[0]);
      DoAllConcat(files, head, Deletions(doomed)[..k - 2]);
    }
  }

  /**
   After each of its file steps a removal leaves every skill that remains backed by its own file, and the removed one
   too until the manifest without it is written.  The catalog can be read except between its truncation and its writing.
   */
  lemma RemoveIsSafeAtEveryStep(files: Files, skills: seq<InstalledSkill>, rest: seq<InstalledSkill>,
                                sorted: seq<InstalledSkill>, id: string, doomed: seq<string>, hash: string -> string,
                                k: nat)
    requires Load(files) == Some(skills) && UniqueIds(skills) && AllBacked(files, skills, hash) && IsSlug(id)
    requires rest == Without(skills, id) && multiset(sorted) == multiset(rest)
    requires forall i :: 0 <= i < |doomed| ==> Inside(doomed[i], SkillDir(id))
    requires k <= 2 + |doomed|
    ensures AllBacked(DoAll(files, RemoveSteps(sorted, doomed)[..k]), rest, hash)
    ensures k <= 2 ==> AllBacked(DoAll(files, RemoveSteps(sorted, doomed)[..k]), skills, hash)
    ensures Load(DoAll(files, RemoveSteps(sorted, doomed)[..k]))
            == if k == 0 then Some(skills) else if k == 1 then None else Some(sorted)
    ensures UniqueIds(sorted) && AllBacked(DoAll(files, RemoveSteps(sorted, doomed)[..k]), sorted, hash)
  {
    hide ManagedPath, IsSlug, SkillDir, Inside, RemoveSteps, Backed, AllBacked, UniqueIds, Without;
    WithoutKeeps(files, skills, id, hash);
    RemovePrefix(files, sorted, doomed, k);
    var f1 := Do(files, Truncate(CATALOG_PATH));
    var f2 := Do(f1, Write(CATALOG_PATH, Manifest(sorted)));
    UniqueByIds(rest);
    DistinctPermutes(rest, sorted, IdOf);
    UniqueByIds(sorted);
    StepOnCatalog(files, Truncate(CATALOG_PATH), skills, hash);
    StepOnCatalog(f1, Write(CATALOG_PATH, Manifest(sorted)), skills, hash);
    WithoutKeeps(f1, skills, id, hash);
    WithoutKeeps(f2, skills, id, hash);
    SortedStaysBacked(files, rest, sorted, hash);
    SortedStaysBacked(f1, rest, sorted, hash);
    SortedStaysBacked(f2, rest, sorted, hash);
    SortedAvoids(rest, sorted, id);
    if k >= 2 {
      hide Do, Load;
      DeletionsAreSafe(f2, rest, id, doomed, hash, k - 2);
      DeletionsAreSafe(f2, sorted, id, doomed, hash, k - 2);
    }
  }

  function Without(skills: seq<InstalledSkill>, id: string): seq<InstalledSkill> {
    if skills == [] then []
    else
      var n := |skills| - 1;
      Without(skills[..n], id) + (if skills[n].id == id then [] else [skills[n]])
  }

  lemma {:induction false} WithoutElements(skills: seq<InstalledSkill>, id: string)
    ensures forall s :: s in Without(skills, id) <==> s in skills && s.id != id
  {
    if skills != [] {
      var n := |skills| - 1;
      WithoutElements(skills[..n], id);
      assert skills == skills[..n] + [skills[n]];
    }
  }

  lemma {:induction false} WithoutIsUnique(skills: seq<InstalledSkill>, id: string)
    requires UniqueIds(skills)
    ensures UniqueIds(Without(skills, id))
  {
    if skills != [] {
      var n := |skills| - 1;
      WithoutIsUnique(skills[..n], id);
      WithoutElements(skills[..n], id);
      hide Without;
      var rest := Without(skills[..n], id);
      forall k | 0 <= k < |rest| ensures rest[k].id != skills[n].id {
        assert rest[k] in skills[..n];
      }
      assert UniqueIds(rest + [skills[n]]);
      WithoutLast(skills, id);
    }
  }

  lemma WithoutLast(skills: seq<InstalledSkill>, id: string)
    requires skills != []
    ensures var n := |skills| - 1;
            || Without(skills, id) == Without(skills[..n], id)
            || Without(skills, id) == Without(skills[..n], id) + [skills[n]]
  {}

  lemma WithoutKeeps(files: Files, skills: seq<InstalledSkill>, id: string, hash: string -> string)
    requires UniqueIds(skills) && AllBacked(files, skills, hash)
    ensures UniqueIds(Without(skills, id)) && AllBacked(files, Without(skills, id), hash)
    ensures forall k :: 0 <= k < |Without(skills, id)| ==> Without(skills, id)[k].id != id
  {
    hide Backed, Without, UniqueIds;
    WithoutElements(skills, id);
    WithoutIsUnique(skills, id);
    var rest := Without(skills, id);
    forall k | 0 <= k < |rest| ensures Backed(files, rest[k], hash) && rest[k].id != id {
      assert rest[k] in skills;
    }
  }

  lemma SortedAvoids(rest: seq<InstalledSkill>, sorted: seq<InstalledSkill>, id: string)
    requires multiset(rest) == multiset(sorted) && forall k :: 0 <= k < |rest| ==> rest[k].id != id
    ensures forall k :: 0 <= k < |sorted| ==> sorted[k].id != id
  {
    SameElements(rest, sorted);
    forall k | 0 <= k < |sorted| ensures sorted[k].id != id { assert sorted[k] in rest; }
  }

  // ----- the calls

  /** What the invariant says when the catalog can be read. */
  lemma KnownCatalog(files: Files, hash: string -> string)
    requires Inv(files, hash)
    ensures Load(files).Some? ==> UniqueIds(Load(files).value) && AllBacked(files, Load(files).value, hash)
  {}

  lemma StopFits(files: Files, hash: string -> string)
    requires Load(files).Some? ==> UniqueIds(Load(files).value) && AllBacked(files, Load(files).value, hash)
    ensures Inv(files, hash)
  {}

  datatype Call =
    | Install(displayName: string, sourcePath: string, data: string, now: string)
    | Remove(name: string, force: bool, enabled: seq<string>)
    | StartAgain(budget: nat)

  /**
   The data directory.  `budget` is the number of file steps that will still be taken: after them everything stops.
   */
  class SkillStore {
    var files: Files
    var budget: nat
    const hash: string -> string

    constructor (hash: string -> string, budget: nat)
      ensures files == map[] && this.budget == budget && this.hash == hash && Inv(files, hash)
    {
      files, this.budget, this.hash := map[], budget, hash;
    }

    /** The process starts again after a stop, on the files as it finds them. */
    method Restart(budget: nat)
      modifies this`budget
      ensures this.budget == budget && files == old(files)
    {
      this.budget := budget;
    }

    /**
     Any sequence of calls, stops half way and restarts: the listed skills are backed whenever the catalog can be read,
     and once it cannot, nothing changes any more.
     */
    method Serve(calls: seq<Call>)
      requires Inv(files, hash)
      modifies this
      ensures Inv(files, hash)
      ensures Load(old(files)).None? ==> files == old(files)
    {
      hide Inv, Load;
      for i := 0 to |calls|
        invariant Inv(files, hash)
        invariant Load(old(files)).None? ==> files == old(files)
      {
        match calls[i] {
          case Install(displayName, sourcePath, data, now) => var _ := InstallSkill(displayName, sourcePath, data, now);
          case Remove(name, force, enabled) => var _ := RemoveSkill(name, force, enabled);
          case StartAgain(budget) => Restart(budget);
        }
      }
    }

    method Perform(s: FileStep) returns (ok: bool)
      modifies this
      ensures ok <==> old(budget) > 0
      ensures files == (if ok then Do(old(files), s) else old(files))
      ensures budget == if ok then old(budget) - 1 else 0
    {
      if budget == 0 { return false; }
      budget := budget - 1;
      files := Do(files, s);
      return true;
    }

    /** Truncate, then write. */
    method WriteFile(path: string, file: File) returns (ok: bool)
      modifies this
      ensures ok <==> old(budget) >= 2
      ensures old(budget) == 0 ==> files == old(files)
      ensures old(budget) == 1 ==> files == Do(old(files), Truncate(path))
      ensures ok ==> files == Do(Do(old(files), Truncate(path)), Write(path, file)) && budget == old(budget) - 2
      ensures !ok ==> budget == 0
    {
      ok := Perform(Truncate(path));
      if !ok { return; }
      ok := Perform(Write(path, file));
    }

    method Find(skills: seq<InstalledSkill>, id: string) returns (found: Option<InstalledSkill>)
      ensures found.Some? ==> found.value in skills && found.value.id == id
      ensures found.None? ==> forall k :: 0 <= k < |skills| ==> skills[k].id != id
    {
      for i := 0 to |skills|
        invariant forall k :: 0 <= k < i ==> skills[k].id != id
      {
        if skills[i].id == id { return Some(skills[i]); }
      }
      return None;
    }

    /** Adding a skill whose ID is taken by other content is an error; by the same content, nothing to do. */
    method InstallSkill(displayName: string, sourcePath: string, data: string, now: string)
      returns (r: Result<InstalledSkill>)
      requires Inv(files, hash)
      modifies this
      ensures Inv(files, hash)
      ensures r.Success? ==>
                && Load(files).Some? && r.value in Load(files).value
                && r.value.id == SkillId(displayName) && r.value.checksum == hash(data)
      ensures r.Success? ==>
                && Load(old(files)).Some?
                && forall s :: s in Load(files).value <==> s in Load(old(files)).value || s == r.value
      ensures r.Success? ==>
                || r.value in Load(old(files)).value
                || r.value == InstalledSkill(SkillId(displayName), displayName, sourcePath,
                                             ManagedPath(SkillId(displayName)), hash(data), now)
      ensures r.Failure? ==>
                || Load(old(files)).None? || budget == 0
                || exists s :: s in Load(old(files)).value && s.id == SkillId(displayName) && s.checksum != hash(data)
      ensures Load(old(files)).None? ==> files == old(files)
      ensures Load(old(files)).Some? ==> AllBacked(files, Load(old(files)).value, hash)
      ensures forall path :: path != CATALOG_PATH && path != ManagedPath(SkillId(displayName)) ==>
                (path in files <==> path in old(files)) && (path in files ==> files[path] == old(files)[path])
    {
      KnownCatalog(files, hash);
      hide Inv, ManagedPath, IsSlug, SkillId, Load, DoAll, AllBacked, UniqueIds;
      var id := NormalizeSkillId(displayName);
      var checksum := hash(data);
      var managedPath := ManagedPath(id);
      var loaded := Load(files);
      if loaded.None? { return Failure("parse skill catalog"); }
      var skills := loaded.value;
      var found := Find(skills, id);
      if found.Some? {
        if found.value.checksum == checksum { return Success(found.value); }
        assert found.value in skills && found.value.checksum != hash(data);
        return Failure("skill already exists with different content");
      }
      var skill := InstalledSkill(id, displayName, sourcePath, managedPath, checksum, now);
      SkillIdIsSlug(displayName);
      var ok := AddSkill(skills, skill, data);
      if !ok { return Failure("write managed skill or skill catalog"); }
      return Success(skill);
    }

    /** The managed file, then the manifest. */
    method AddSkill(skills: seq<InstalledSkill>, skill: InstalledSkill, data: string) returns (ok: bool)
      requires Load(files) == Some(skills) && UniqueIds(skills) && AllBacked(files, skills, hash)
      requires forall i :: 0 <= i < |skills| ==> skills[i].id != skill.id
      requires IsSlug(skill.id) && skill.managedPath == ManagedPath(skill.id) && skill.checksum == hash(data)
      modifies this
      ensures Inv(files, hash) && AllBacked(files, skills, hash)
      ensures ok ==> Load(files).Some? && forall s :: s in Load(files).value <==> s in skills || s == skill
      ensures !ok ==> budget == 0
      ensures forall path :: path != CATALOG_PATH && path != skill.managedPath ==>
                (path in files <==> path in old(files)) && (path in files ==> files[path] == old(files)[path])
    {
      hide Inv, ManagedPath, IsSlug, Load, DoAll, AllBacked, UniqueIds;
      IdBeforeIsWeakOrder();
      var sorted := SortSlice(skills + [skill], IdBefore);
      ghost var start := files;
      ghost var steps := InstallSteps(skill, data, sorted);
      forall k: nat | k <= 4
        ensures Inv(DoAll(start, steps[..k]), hash) && AllBacked(DoAll(start, steps[..k]), skills, hash)
      {
        InstallIsSafeAtEveryStep(start, skills, sorted, skill, data, hash, k);
        StopFits(DoAll(start, steps[..k]), hash);
      }
      FourSteps(start, steps[0], steps[1], steps[2], steps[3]);
      assert steps == [steps[0], steps[1], steps[2], steps[3]];
      ok := WriteFile(skill.managedPath, Markdown(data));
      if !ok { return; }
      ok := WriteFile(CATALOG_PATH, Manifest(sorted));
      if !ok { return; }
      SameElements(skills + [skill], sorted);
      LoadWritten(files, sorted);
    }

    method Others(skills: seq<InstalledSkill>, id: string)
      returns (next: seq<InstalledSkill>, removed: Option<InstalledSkill>)
      ensures next == Without(skills, id)
      ensures removed.Some? ==> removed.value in skills && removed.value.id == id
      ensures removed.None? ==> forall k :: 0 <= k < |skills| ==> skills[k].id != id
    {
      next, removed := [], None;
      for i := 0 to |skills|
        invariant next == Without(skills[..i], id)
        invariant removed.Some? ==> removed.value in skills && removed.value.id == id
        invariant removed.None? ==> forall k :: 0 <= k < i ==> skills[k].id != id
      {
        assert skills[..i + 1][..i] == skills[..i];
        if skills[i].id == id {
          removed := Some(skills[i]);
        } else {
          next := next + [skills[i]];
        }
      }
      assert skills[..|skills|] == skills;
    }

    /** `os.RemoveAll` on one skill's directory: its files go one by one, in any order. */
    method RemoveDirectory(id: string) returns (ok: bool)
      requires Inv(files, hash) && Load(files).Some? && IsSlug(id)
      requires forall k :: 0 <= k < |Load(files).value| ==> Load(files).value[k].id != id
      modifies this
      ensures Inv(files, hash) && Load(files) == Load(old(files))
      ensures AllBacked(files, Load(files).value, hash)
      ensures forall path :: path in files ==> path in old(files) && files[path] == old(files)[path]
      ensures forall path :: path in old(files) && !Inside(path, SkillDir(id)) ==> path in files
      ensures ok ==> forall path :: path in files ==> !Inside(path, SkillDir(id))
      ensures !ok ==> budget == 0
    {
      KnownCatalog(files, hash);
      hide Inv, IsSlug, Load, Inside, SkillDir, AllBacked, UniqueIds;
      var doomed := set path | path in files && Inside(path, SkillDir(id));
      while doomed != {}
        invariant Inv(files, hash) && Load(files) == Load(old(files))
        invariant AllBacked(files, Load(files).value, hash) && UniqueIds(Load(files).value)
        invariant doomed == set path | path in files && Inside(path, SkillDir(id))
        invariant forall path :: path in files ==> path in old(files) && files[path] == old(files)[path]
        invariant forall path :: path in old(files) && !Inside(path, SkillDir(id)) ==> path in files
        decreases |doomed|
      {
        var path :| path in doomed;
        DeletionIsSafe(files, Load(files).value, id, path, hash);
        ok := Perform(Delete(path));
        StopFits(files, hash);
        if !ok { return; }
        doomed := doomed - {path};
      }
      assert forall path :: path in files && Inside(path, SkillDir(id)) ==> path in doomed;
      return true;
    }

    /** `ensureSkillNotEnabledInCurrentProject` */
    method EnabledIn(id: string, enabled: seq<string>) returns (used: bool)
      ensures used <==> exists k :: 0 <= k < |enabled| && SkillId(enabled[k]) == id
    {
      hide SkillId;
      for i := 0 to |enabled|
        invariant forall k :: 0 <= k < i ==> SkillId(enabled[k]) != id
      {
        var e := NormalizeSkillId(enabled[i]);
        if e == id { return true; }
      }
      return false;
    }

    /** `enabled` are the skills the current project enables. */
    method RemoveSkill(name: string, force: bool, enabled: seq<string>) returns (r: Result<InstalledSkill>)
      requires Inv(files, hash)
      modifies this
      ensures Inv(files, hash)
      ensures r.Success? ==>
                && Load(old(files)).Some? && r.value in Load(old(files)).value && r.value.id == SkillId(name)
                && Load(files).Some?
                && (forall s :: s in Load(files).value <==> s in Load(old(files)).value && s.id != SkillId(name))
                && (forall path :: path in files ==> !Inside(path, SkillDir(SkillId(name))))
      ensures r.Failure? ==>
                || Load(old(files)).None? || budget == 0
                || (!force && exists k :: 0 <= k < |enabled| && SkillId(enabled[k]) == SkillId(name))
                || forall s :: s in Load(old(files)).value ==> s.id != SkillId(name)
      ensures r.Success? && !force ==> forall k :: 0 <= k < |enabled| ==> SkillId(enabled[k]) != SkillId(name)
      ensures Load(old(files)).None? ==> files == old(files)
      ensures Load(old(files)).Some? ==> AllBacked(files, Without(Load(old(files)).value, SkillId(name)), hash)
      ensures forall path :: path != CATALOG_PATH && !Inside(path, SkillDir(SkillId(name))) ==>
                (path in files <==> path in old(files)) && (path in files ==> files[path] == old(files)[path])
    {
      KnownCatalog(files, hash);
      if Load(files).Some? { WithoutKeeps(files, Load(files).value, SkillId(name), hash); }
      hide Inv, IsSlug, SkillId, Load, DoAll, Inside, SkillDir, AllBacked, Without;
      var id := NormalizeSkillId(name);
      if !force {
        var used := EnabledIn(id, enabled);
        if used { return Failure("skill is still enabled"); }
      }
      var loaded := Load(files);
      if loaded.None? { return Failure("parse skill catalog"); }
      var skills := loaded.value;
      var next, removed := Others(skills, id);
      if removed.None? { return Failure("skill not found"); }
      SkillIdIsSlug(name);
      WithoutElements(skills, id);
      var ok := SaveWithout(skills, id, next);
      if !ok { return Failure("write skill catalog"); }
      ghost var saved := Load(files).value;
      ok := RemoveDirectory(id);
      SortedStaysBacked(files, saved, next, hash);
      if !ok { return Failure("remove managed skill"); }
      return Success(removed.value);
    }

    /** `SaveSkillCatalog` on the manifest without one skill. */
    method SaveWithout(skills: seq<InstalledSkill>, id: string, next: seq<InstalledSkill>) returns (ok: bool)
      requires Inv(files, hash) && Load(files) == Some(skills) && IsSlug(id) && next == Without(skills, id)
      modifies this
      ensures Inv(files, hash) && AllBacked(files, next, hash)
      ensures ok ==>
                && Load(files).Some? && multiset(Load(files).value) == multiset(next)
                && (forall s :: s in Load(files).value <==> s in next)
                && (forall k :: 0 <= k < |Load(files).value| ==> Load(files).value[k].id != id)
      ensures !ok ==> budget == 0
      ensures forall path :: path != CATALOG_PATH ==>
                (path in files <==> path in old(files)) && (path in files ==> files[path] == old(files)[path])
    {
      KnownCatalog(files, hash);
      hide Inv, IsSlug, DoAll, Load, AllBacked, UniqueIds;
      IdBeforeIsWeakOrder();
      var sorted := SortSlice(next, IdBefore);
      ghost var start := files;
      SavePrefixes(start, sorted);
      forall k: nat | k <= 2
        ensures Inv(DoAll(start, RemoveSteps(sorted, [])[..k]), hash)
        ensures AllBacked(DoAll(start, RemoveSteps(sorted, [])[..k]), next, hash)
      {
        RemoveIsSafeAtEveryStep(start, skills, next, sorted, id, [], hash, k);
        StopFits(DoAll(start, RemoveSteps(sorted, [])[..k]), hash);
      }
      ok := WriteFile(CATALOG_PATH, Manifest(sorted));
      if ok {
        SameElements(next, sorted);
        LoadWritten(files, sorted);
        WithoutElements(skills, id);
        forall k | 0 <= k < |sorted| ensures sorted[k].id != id { assert sorted[k] in next; }
      }
    }
  }

  lemma LoadWritten(files: Files, skills: seq<InstalledSkill>)
    requires CATALOG_PATH in files && files[CATALOG_PATH] == Manifest(skills)
    ensures Load(files) == Some(skills)
  {}

  lemma SavePrefixes(files: Files, sorted: seq<InstalledSkill>)
    ensures var steps := RemoveSteps(sorted, []);
            && DoAll(files, steps[..0]) == files
            && DoAll(files, steps[..1]) == Do(files, Truncate(CATALOG_PATH))
            && DoAll(files, steps[..2]) == Do(Do(files, Truncate(CATALOG_PATH)), Write(CATALOG_PATH, Manifest(sorted)))
  {
    var steps := RemoveSteps(sorted, []);
    assert steps[..1] == [Truncate(CATALOG_PATH)] && steps[..1][..0] == [] && steps[..2][..1] == steps[..1];
  }
}
