/** The part of the file system the incident publisher works on: names bound to inodes, the
    inode table, and the durable copy of every name that a power loss falls back to. */
module Tree {
  type Byte = x: int | 0 <= x < 256
  type Bytes = seq<Byte>

  const FILE_MODE: nat := 0x180 // 0o600
  const MAX_FILE_BYTES: nat := 64 * 1024 * 1024

  /** One incident: the market, the ISO date of the session and the role that failed. */
  datatype Key = Key(market: string, session: string, role: string)

  datatype Kind = Receipt | Pointer

  /** A file the publisher owns: the receipt or the queue pointer of an incident. */
  datatype Target = Target(kind: Kind, key: Key)

  datatype Directory =
    | Session(market: string, session: string)
    | Incidents(market: string, session: string)
    | Queue

  /** A directory entry. `Spelling` (paths.dfy) gives the text of each and shows that the publisher's
      prefix and suffix tests on that text recognise exactly the `Stage` entries of a target. */
  datatype Path =
    | Final(target: Target)
    | Stage(target: Target, token: string)
    | Other(directory: Directory, text: string)

  function Home(t: Target): Directory {
    match t.kind
    case Receipt => Incidents(t.key.market, t.key.session)
    case Pointer => Queue
  }

  function DirectoryOf(p: Path): Directory {
    match p
    case Final(t) => Home(t)
    case Stage(t, _) => Home(t)
    case Other(dir, _) => dir
  }

  function ManifestPath(k: Key): Path {
    Other(Session(k.market, k.session), "preparation-manifest.json")
  }

  /** `synced` says that the data and mode have reached the disk since they last changed. */
  datatype Inode = Inode(data: Bytes, mode: nat, synced: bool)

  datatype Disk = Disk(inodes: map<nat, Inode>, names: map<Path, nat>, durable: map<Path, nat>) {

    /** The link count: how many names are bound to an inode. */
    function Links(ino: nat): nat {
      |set p | p in names && names[p] == ino|
    }

    function Create(p: Path, ino: nat, mode: nat): Disk {
      this.(inodes := inodes[ino := Inode([], mode, false)], names := names[p := ino])
    }

    function Chmod(ino: nat, mode: nat): Disk
      requires ino in inodes
    {
      this.(inodes := inodes[ino := inodes[ino].(mode := mode, synced := false)])
    }

    function Append(ino: nat, chunk: Bytes): Disk
      requires ino in inodes
    {
      this.(inodes := inodes[ino := inodes[ino].(data := inodes[ino].data + chunk, synced := false)])
    }

    function SyncFile(ino: nat): Disk
      requires ino in inodes
    {
      this.(inodes := inodes[ino := inodes[ino].(synced := true)])
    }

    function Link(ino: nat, p: Path): Disk {
      this.(names := names[p := ino])
    }

    function Unlink(p: Path): Disk {
      this.(names := names - {p})
    }

    /** fsync of a directory: every entry of it, and no other, becomes durable as it stands. */
    function SyncDirectory(dir: Directory): Disk {
      this.(durable :=
        map p | p in names.Keys + durable.Keys && p in (if DirectoryOf(p) == dir then names else durable)
          :: if DirectoryOf(p) == dir then names[p] else durable[p])
    }

    /** The kernel may write any single entry back at any time. */
    function WriteBack(p: Path): Disk {
      this.(durable := if p in names then durable[p := names[p]] else durable - {p})
    }

    function Entries(dir: Directory): set<Path> {
      set p | p in names && DirectoryOf(p) == dir
    }

    /** Some name, on either side of the cache, is bound to the inode. */
    ghost predicate At(p: Path, ino: nat) {
      (p in names && names[p] == ino) || (p in durable && durable[p] == ino)
    }

    /** `_read_private_file`: a private file within the size bound, with an admitted link count. */
    predicate Readable(p: Path, links: set<nat>) {
      && p in names
      && names[p] in inodes
      && inodes[names[p]].mode == FILE_MODE
      && Links(names[p]) in links
      && |inodes[names[p]].data| <= MAX_FILE_BYTES
    }

    function Data(p: Path): Bytes
      requires p in names && names[p] in inodes
    {
      inodes[names[p]].data
    }
  }

  /** What a power loss leaves: the durable names, and the contents of every synced inode. An inode
      that was not synced may come back with any contents, and with either mode it has had. */
  ghost predicate AfterOutage(d: Disk, d': Disk, createMode: nat) {
    && d'.names == d.durable
    && d'.durable == d.durable
    && d'.inodes.Keys == d.inodes.Keys
    && forall i :: i in d.inodes ==>
         if d.inodes[i].synced then d'.inodes[i] == d.inodes[i]
         else d'.inodes[i].mode in {createMode, d.inodes[i].mode} && !d'.inodes[i].synced
  }

  lemma OneLink(d: Disk, ino: nat, p: Path)
    requires p in d.names && d.names[p] == ino
    requires forall q :: q in d.names && d.names[q] == ino ==> q == p
    ensures d.Links(ino) == 1
  {
    assert (set q | q in d.names && d.names[q] == ino) == {p};
  }

  lemma TwoLinks(d: Disk, ino: nat, p: Path, q: Path)
    requires p != q && p in d.names && d.names[p] == ino && q in d.names && d.names[q] == ino
    requires forall x :: x in d.names && d.names[x] == ino ==> x == p || x == q
    ensures d.Links(ino) == 2
  {
    assert (set x | x in d.names && d.names[x] == ino) == {p, q};
  }
}
