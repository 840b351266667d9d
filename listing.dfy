/**
 * Store listings and the node classifier (`getCidType`, main.js).
 *
 * A listing is what `ipfs.ls(cid)` yields, gathered into a list: one entry per
 * child of a directory, or a single entry describing the object itself when
 * the CID names a file.
 */
module Listing {
  /** A content identifier, as the string the operator types or `cid.toString()` gives. */
  type Cid = string

  /** One item of a listing: the `name`, `path`, `cid` and `type` fields the code reads. */
  datatype Entry = Entry(name: string, path: string, cid: Cid, entryType: string)

  /** The three answers of `getCidType`: "file", "dir" and "empty". */
  datatype Kind = File | Dir | Empty

  /**
   * Classifies a listing. Total: every listing gets exactly one kind.
   * An empty listing is an empty node; a single entry whose name equals its
   * path describes a file itself; any other single entry, and any listing with
   * two or more entries, is a directory's children.
   */
  function CidType(files: seq<Entry>): (k: Kind)
    ensures k == Empty <==> |files| == 0
    ensures k == File <==> |files| == 1 && files[0].name == files[0].path
    ensures k == Dir <==> |files| > 1 || (|files| == 1 && files[0].name != files[0].path)
    ensures k == Dir ==> |files| >= 1
  {
    if |files| == 1 then
      if files[0].name == files[0].path then File else Dir
    else if |files| == 0 then
      Empty
    else
      Dir
  }

  /** The CIDs of a listing's entries, in listing order (the choices offered on "enter"). */
  function Cids(files: seq<Entry>): (cs: seq<Cid>)
    ensures |cs| == |files|
    ensures forall i :: 0 <= i < |files| ==> cs[i] == files[i].cid
  {
    if files == [] then [] else [files[0].cid] + Cids(files[1..])
  }

  /** How an entry is shown to the operator: `type - name (cid)`. */
  function Describe(e: Entry): string {
    e.entryType + " - " + e.name + " (" + e.cid + ")"
  }
}
