/**
 * A directory as the source's file operations see it. Name changes take effect at once, but only
 * `SyncDirectory` makes them durable: the earlier listings are what a power loss can bring back.
 * File contents are durable once synced.
 */
module Storage {
  import opened Framing

  datatype File = File(bytes: Bytes, synced: bool)

  type Listing = map<string, File>

  /** The listings since the last directory sync, oldest first; the last one is visible. */
  type Directory = d: seq<Listing> | d != [] witness [map[]]

  function Visible(d: Directory): Listing {
    d[|d| - 1]
  }

  /** Rewrites the visible listing in place: file contents are not directory entries. */
  function Replace(d: Directory, v: Listing): Directory {
    d[..|d| - 1] + [v]
  }

  /** Opens `name` for writing, empty. */
  function Create(d: Directory, name: string): Directory {
    d + [Visible(d)[name := File([], false)]]
  }

  function Append(d: Directory, name: string, bytes: Bytes): Directory
    requires name in Visible(d)
  {
    Replace(d, Visible(d)[name := File(Visible(d)[name].bytes + bytes, false)])
  }

  function SyncFile(d: Directory, name: string): Directory
    requires name in Visible(d)
  {
    Replace(d, Visible(d)[name := File(Visible(d)[name].bytes, true)])
  }

  /** Atomically moves `from` over `to`. */
  function Rename(d: Directory, from: string, to: string): Directory
    requires from in Visible(d)
  {
    d + [(Visible(d) - {from})[to := Visible(d)[from]]]
  }

  /** Gives `from` a second name that must be free. */
  function HardLink(d: Directory, from: string, to: string): Directory
    requires from in Visible(d) && to !in Visible(d)
  {
    d + [Visible(d)[to := Visible(d)[from]]]
  }

  function Remove(d: Directory, name: string): Directory {
    d + [Visible(d) - {name}]
  }

  function SyncDirectory(d: Directory): Directory {
    [Visible(d)]
  }

  /** After a power loss: one of the listings, with unsynced contents replaced by anything. */
  function Recovered(d: Directory, i: nat, garbage: map<string, Bytes>): Directory
    requires i < |d|
  {
    [map name | name in d[i] ::
       if d[i][name].synced then d[i][name] else File(if name in garbage then garbage[name] else [], true)]
  }

  /** In every listing the file under `name` is synced and holds acceptable bytes. */
  ghost predicate Durably(d: Directory, name: string, good: Bytes -> bool) {
    forall i :: 0 <= i < |d| && name in d[i] ==> d[i][name].synced && good(d[i][name].bytes)
  }

  /** Operations on other names leave a durable file durable. */
  lemma {:induction false} CreateKeeps(d: Directory, other: string, name: string, good: Bytes -> bool)
    requires Durably(d, name, good) && other != name
    ensures Durably(Create(d, other), name, good)
  {
  }

  lemma {:induction false} AppendKeeps(d: Directory, other: string, bytes: Bytes, name: string, good: Bytes -> bool)
    requires Durably(d, name, good) && other != name && other in Visible(d)
    ensures Durably(Append(d, other, bytes), name, good)
    ensures Durably(SyncFile(d, other), name, good)
  {
  }

  lemma {:induction false} RemoveKeeps(d: Directory, other: string, name: string, good: Bytes -> bool)
    requires Durably(d, name, good) && other != name
    ensures Durably(Remove(d, other), name, good)
  {
  }

  /** Renaming a synced file with acceptable bytes over `name` keeps it durable. */
  lemma {:induction false} RenameInstalls(d: Directory, from: string, name: string, good: Bytes -> bool)
    requires Durably(d, name, good) && from in Visible(d) && from != name
    requires Visible(d)[from].synced && good(Visible(d)[from].bytes)
    ensures Durably(Rename(d, from, name), name, good)
  {
  }

  lemma {:induction false} DurablyWeakens(d: Directory, name: string, good: Bytes -> bool, enough: Bytes -> bool)
    requires Durably(d, name, good) && forall b :: good(b) ==> enough(b)
    ensures Durably(d, name, enough)
  {
  }

  lemma {:induction false} RecoveredKeeps(d: Directory, i: nat, garbage: map<string, Bytes>, name: string,
                                          good: Bytes -> bool)
    requires i < |d| && Durably(d, name, good)
    ensures Durably(Recovered(d, i, garbage), name, good)
  {
  }
}
