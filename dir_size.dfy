/**
 * The local directory size estimate, `dirSize` (main.js): the sum over a
 * directory's entries, where a sub-directory gives its own `dirSize`, a
 * regular file its `stat` size, and any other kind of entry 0.
 */
module DirSize {
  /** What `readdir(..., {withFileTypes: true})` tells about an entry, with the file's size. */
  datatype Node = Directory(entries: seq<Dirent>) | RegularFile(size: nat) | OtherEntry

  /** One directory entry: its name and what it is. */
  datatype Dirent = Dirent(name: string, node: Node)

  /** `dirSize(dir)`, given the entries `readdir` lists for `dir`, summed in listing order. */
  function DirSize(entries: seq<Dirent>): nat
    decreases entries
  {
    if entries == [] then 0
    else EntrySize(entries[0]) + DirSize(entries[1..])
  }

  /** What one entry contributes to its directory's size. */
  function EntrySize(e: Dirent): nat
    decreases e
  {
    match e.node
    case Directory(children) => DirSize(children)
    case RegularFile(size) => size
    case OtherEntry => 0
  }

  /** The sizes of every regular file in the tree, depth first in listing order. */
  function FileSizes(entries: seq<Dirent>): seq<nat>
    decreases entries
  {
    if entries == [] then [] else EntryFileSizes(entries[0]) + FileSizes(entries[1..])
  }

  /** The sizes of the regular files at or below one entry. */
  function EntryFileSizes(e: Dirent): seq<nat>
    decreases e
  {
    match e.node
    case Directory(children) => FileSizes(children)
    case RegularFile(size) => [size]
    case OtherEntry => []
  }

  /** The sum of a list of sizes. */
  function Sum(xs: seq<nat>): nat {
    if xs == [] then 0 else xs[0] + Sum(xs[1..])
  }

  /** Summing a concatenation sums the parts. */
  lemma {:induction false} SumAppend(xs: seq<nat>, ys: seq<nat>)
    ensures Sum(xs + ys) == Sum(xs) + Sum(ys)
  {
    if xs == [] {
      assert xs + ys == ys;
    } else {
      assert (xs + ys)[1..] == xs[1..] + ys;
      SumAppend(xs[1..], ys);
    }
  }

  /**
   * The estimate is the total size of the regular files anywhere in the
   * tree: sub-directories add nothing of their own, other entries nothing at all.
   */
  lemma {:induction false} DirSizeIsSumOfFiles(entries: seq<Dirent>)
    ensures DirSize(entries) == Sum(FileSizes(entries))
    decreases entries
  {
    if entries != [] {
      EntrySizeIsSumOfFiles(entries[0]);
      DirSizeIsSumOfFiles(entries[1..]);
      SumAppend(EntryFileSizes(entries[0]), FileSizes(entries[1..]));
    }
  }

  /** One entry's contribution is the total size of the regular files at or below it. */
  lemma {:induction false} EntrySizeIsSumOfFiles(e: Dirent)
    ensures EntrySize(e) == Sum(EntryFileSizes(e))
    decreases e
  {
    match e.node
    case Directory(children) => DirSizeIsSumOfFiles(children);
    case RegularFile(size) => assert [size][1..] == [];
    case OtherEntry =>
  }

  /** Additivity: the entries of a directory may be split anywhere and the parts summed. */
  lemma {:induction false} DirSizeAppend(a: seq<Dirent>, b: seq<Dirent>)
    ensures DirSize(a + b) == DirSize(a) + DirSize(b)
  {
    if a == [] {
      assert a + b == b;
    } else {
      assert (a + b)[1..] == a[1..] + b;
      DirSizeAppend(a[1..], b);
    }
  }

  /** The estimate does not depend on the order in which the parts of a listing come. */
  lemma DirSizeSwap(a: seq<Dirent>, b: seq<Dirent>)
    ensures DirSize(a + b) == DirSize(b + a)
  {
    DirSizeAppend(a, b);
    DirSizeAppend(b, a);
  }

  /** Files of 10, 20 and 30 bytes, nested two levels deep beside a link, add up to 60. */
  lemma NestedExample()
    ensures DirSize([
      Dirent("a.txt", RegularFile(10)),
      Dirent("sub", Directory([
        Dirent("b.txt", RegularFile(20)),
        Dirent("link", OtherEntry),
        Dirent("deeper", Directory([Dirent("c.txt", RegularFile(30))]))]))]) == 60
  {
  }
}
