/** The part of the file system the provisioning pipeline touches, as a map
    from absolute path strings to nodes, and the effect of each file
    operation it uses (Files.createSymbolicLink, Files.delete,
    FileUtils.deleteDirectory, FileUtils.copyFile) on that map. Paths use '/'
    as File.separatorChar. */
module Files {
  import opened Lang

  const SEP: char := '/'

  /** What lies at a path. File contents are not modelled. */
  datatype Node = Directory | RegularFile | SymbolicLink(target: string)

  type FileSystem = map<string, Node>

  /** `dir + File.separatorChar + name`. */
  function Join(dir: string, name: string): string
  {
    dir + [SEP] + name
  }

  /** The directory, the separator and the name can be read back from a join. */
  lemma JoinParts(dir: string, name: string)
    ensures var p := Join(dir, name);
            |p| == |dir| + 1 + |name| && p[..|dir|] == dir && p[|dir|] == SEP && p[|dir| + 1..] == name
  {
  }

  /** p lies somewhere below dir. */
  predicate IsUnder(dir: string, p: string) {
    |p| > |dir| + 1 && p[..|dir|] == dir && p[|dir|] == SEP
  }

  /** p is an immediate entry of dir (what Files.list returns). */
  predicate IsChild(dir: string, p: string) {
    IsUnder(dir, p) && SeparatorFree(p[|dir| + 1..])
  }

  function ChildName(dir: string, p: string): string
    requires IsUnder(dir, p)
  {
    p[|dir| + 1..]
  }

  /** File.getName: the part after the last separator. */
  function FileName(p: string): (name: string)
    ensures SeparatorFree(name)
  {
    if p == [] then []
    else if p[|p| - 1] == SEP then []
    else FileName(p[..|p| - 1]) + [p[|p| - 1]]
  }

  /** The name is what follows the last separator: a suffix of the path that
      is either the whole path or preceded by a separator. */
  lemma {:induction false} FileNameIsSuffix(p: string)
    ensures |FileName(p)| <= |p| && FileName(p) == p[|p| - |FileName(p)|..]
    ensures |FileName(p)| == |p| || p[|p| - |FileName(p)| - 1] == SEP
  {
    if p != [] && p[|p| - 1] != SEP {
      var q := p[..|p| - 1];
      FileNameIsSuffix(q);
      var k := |q| - |FileName(q)|;
      assert q[k..] == p[k..|p| - 1];
      assert p[k..] == p[k..|p| - 1] + [p[|p| - 1]];
      if k > 0 {
        assert p[k - 1] == q[k - 1];
      }
    }
  }

  /** A single-component name appended to a directory is one of its entries, and
      reading the entry's name gives the name back. */
  lemma JoinIsChild(dir: string, name: string)
    requires name != [] && SeparatorFree(name)
    ensures IsChild(dir, Join(dir, name)) && ChildName(dir, Join(dir, name)) == name
  {
  }

  predicate HasEntries(fs: FileSystem, dir: string) {
    exists p :: p in fs && IsUnder(dir, p)
  }

  /** FileUtils.deleteDirectory when it does not throw: the directory and
      everything below it are gone, every other path is untouched. */
  function TreeDeleted(fs: FileSystem, dir: string): (r: FileSystem)
    ensures dir !in r && forall p :: p in r ==> !IsUnder(dir, p)
    ensures forall p :: p in fs && p != dir && !IsUnder(dir, p) ==> p in r && r[p] == fs[p]
    ensures r.Keys <= fs.Keys
  {
    map p | p in fs && p != dir && !IsUnder(dir, p) :: fs[p]
  }

  /** `if (!Files.isSymbolicLink(link)) Files.createSymbolicLink(link, target)`
      with any IOException swallowed: the link is made only when nothing is at
      that path yet (anything else there makes createSymbolicLink throw) and
      the call does not fail for another reason. */
  function LinkCreated(fs: FileSystem, link: string, target: string, fails: bool): FileSystem
  {
    if link in fs || fails then fs else fs[link := SymbolicLink(target)]
  }

  /** Files.delete(link) with any IOException swallowed: a missing path or a
      non-empty directory makes it throw, and then nothing changes. */
  function LinkDeleted(fs: FileSystem, link: string, fails: bool): FileSystem
  {
    if link !in fs || fails || (fs[link].Directory? && HasEntries(fs, link)) then fs
    else fs - {link}
  }

  /** Creating a link twice leaves what creating it once does. */
  lemma LinkCreatedIdempotent(fs: FileSystem, link: string, target: string, fails: bool)
    ensures var once := LinkCreated(fs, link, target, fails);
            LinkCreated(once, link, target, fails) == once
    ensures var once := LinkCreated(fs, link, target, fails);
            link !in fs && !fails ==> once[link] == SymbolicLink(target) && once - {link} == fs - {link}
  {
  }

  /** Deleting a missing link changes nothing and raises nothing. */
  lemma LinkDeletedMissing(fs: FileSystem, link: string, fails: bool)
    requires link !in fs
    ensures LinkDeleted(fs, link, fails) == fs
  {
  }

  /** A created link is removed again by a delete that does not fail. */
  lemma LinkDeletedAfterCreated(fs: FileSystem, link: string, target: string)
    requires link !in fs
    ensures LinkDeleted(LinkCreated(fs, link, target, false), link, false) == fs
  {
    assert LinkCreated(fs, link, target, false)[link] == SymbolicLink(target);
  }
}
