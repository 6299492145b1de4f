/** One lifecycle store (Directory.swift): a directory whose sub-entries are named by job
    identifiers and each hold one encoded job in a file named `job`. Paths are sequences
    of components. JSON is abstracted: an entry is either an encoded job, which decodes
    back to exactly that job, or an entry that does not decode. */
module Directories {
  import opened Results
  import opened Uuids
  import opened Jobs

  type Url = seq<string>

  datatype Entry<P> = Encoded(job: Job<P>) | Undecodable

  function Encode<P>(job: Job<P>): (entry: Entry<P>)
    ensures Decode(entry) == Some(job)
  {
    Encoded(job)
  }

  function Decode<P>(entry: Entry<P>): (decoded: Option<Job<P>>) {
    match entry
    case Encoded(job) => Some(job)
    case Undecodable => None
  }

  /** The entries of one store, keyed by entry name. */
  type Store<P> = map<string, Entry<P>>

  const JobFileName: string := "job"

  datatype Directory = Directory(url: Url)

  /** The name of a job's entry in any store. */
  function Key<P>(job: Job<P>): (name: string) {
    UuidString(job.id)
  }

  /** `url(for:)`. */
  function EntryUrl<P>(dir: Directory, job: Job<P>): (url: Url)
    ensures |url| == |dir.url| + 1 && url[..|dir.url|] == dir.url
    ensures url[|dir.url|] == UuidString(job.id)
  {
    dir.url + [Key(job)]
  }

  /** `payloadURL(for: Job)`. */
  function PayloadUrl<P>(dir: Directory, job: Job<P>): (url: Url)
    ensures |url| == |dir.url| + 2 && url[..|dir.url| + 1] == EntryUrl(dir, job)
    ensures url[|dir.url| + 1] == JobFileName
  {
    EntryUrl(dir, job) + [JobFileName]
  }

  /** `payloadURL(for: String)`, used for names read from a directory listing. */
  function PayloadUrlForName(dir: Directory, name: string): (url: Url)
    ensures |url| == |dir.url| + 2 && url[..|dir.url|] == dir.url
    ensures url[|dir.url|] == name && url[|dir.url| + 1] == JobFileName
  {
    dir.url + [name] + [JobFileName]
  }

  /** A job's entry sits directly inside the store, and its payload is the file `job`
      inside the entry; both payload addressings agree on a job's own name. */
  lemma PayloadUrlsAgree<P>(dir: Directory, job: Job<P>)
    ensures PayloadUrl(dir, job) == PayloadUrlForName(dir, UuidString(job.id))
    ensures EntryUrl(dir, job)[..|dir.url|] == dir.url
    ensures |PayloadUrl(dir, job)| == |dir.url| + 2
    ensures PayloadUrl(dir, job)[..|dir.url| + 1] == EntryUrl(dir, job)
    ensures PayloadUrl(dir, job)[|dir.url| + 1] == "job"
  {
  }

  /** Distinct jobs never share an entry within one store. */
  lemma EntryUrlsDistinct<P>(dir: Directory, a: Job<P>, b: Job<P>)
    requires a.id != b.id
    ensures EntryUrl(dir, a) != EntryUrl(dir, b)
  {
    UuidStringInjective(a.id, b.id);
    assert EntryUrl(dir, a)[|dir.url|] == Key(a);
    assert EntryUrl(dir, b)[|dir.url|] == Key(b);
  }

  /** What the filesystem holds at a path: a plain file, or a directory with its job
      entries. A directory's sub-directories other than job entries are paths of their
      own and are not listed among its entries. */
  datatype Node<P> = File | Folder(entries: Store<P>)

  /** The part of the filesystem the engine looks at. A path absent from the map is absent. */
  type Disk<P> = map<Url, Node<P>>

  /** What `setup()` throws. `FileExistsInDirectoryURL` is `Directory.SetupError`;
      `CreateDirectoryFailed` stands for the Foundation error `createDirectory` throws,
      which `setup()` passes on unchanged. */
  datatype SetupError = FileExistsInDirectoryURL(url: Url) | CreateDirectoryFailed(url: Url)

  /** A plain file sits at `url`. */
  predicate Occupied<P>(disk: Disk<P>, url: Url) {
    url in disk && disk[url].File?
  }

  /** No plain file sits at `url` or at any directory above it. */
  predicate NoFileAbove<P>(disk: Disk<P>, url: Url) {
    forall i :: 0 <= i <= |url| ==> !Occupied(disk, url[..i])
  }

  /** `createDirectory(at:withIntermediateDirectories: true)`: create `url` and every
      missing directory above it, walking up to the nearest path that exists. It fails
      when that path is a plain file. */
  function CreateDirectory<P>(disk: Disk<P>, url: Url): (r: Option<Disk<P>>)
    ensures r.Some? ==> url in r.value && r.value[url].Folder?
    decreases |url|
  {
    if url in disk then
      if disk[url].Folder? then Some(disk) else None
    else if |url| == 0 then Some(disk[url := Folder(map[])])
    else
      match CreateDirectory(disk, url[..|url| - 1])
      case None => None
      case Some(parent) => Some(parent[url := Folder(map[])])
  }

  /** What a successful `createDirectory` does: every existing path keeps its job
      entries, and the paths it adds are `url` and directories above it, created with
      no job entries, each inside a directory. */
  lemma {:induction false} CreateDirectoryEffect<P>(disk: Disk<P>, url: Url)
    requires CreateDirectory(disk, url).Some?
    ensures var created := CreateDirectory(disk, url).value;
            && (forall p :: p in disk ==> p in created && created[p] == disk[p])
            && (forall p :: p in created && p !in disk ==> p <= url && created[p] == Folder(map[]))
            && (forall p :: p in created && p !in disk && |p| > 0 ==>
                  p[..|p| - 1] in created && created[p[..|p| - 1]].Folder?)
    decreases |url|
  {
    if url !in disk && |url| > 0 {
      var parentUrl := url[..|url| - 1];
      CreateDirectoryEffect(disk, parentUrl);
      assert parentUrl <= url;
    }
  }

  /** `createDirectory` fails only when a plain file sits at `url` or above it. */
  lemma {:induction false} CreateDirectoryFailure<P>(disk: Disk<P>, url: Url)
    requires CreateDirectory(disk, url).None?
    ensures exists i :: 0 <= i <= |url| && Occupied(disk, url[..i])
    decreases |url|
  {
    assert url[..|url|] == url;
    if url !in disk && |url| > 0 {
      var parentUrl := url[..|url| - 1];
      CreateDirectoryFailure(disk, parentUrl);
      var i :| 0 <= i <= |parentUrl| && Occupied(disk, parentUrl[..i]);
      assert parentUrl[..i] == url[..i];
    }
  }

  /** With no plain file at or above `url`, creating it succeeds. */
  lemma {:induction false} CreateDirectorySucceeds<P>(disk: Disk<P>, url: Url)
    requires NoFileAbove(disk, url)
    ensures CreateDirectory(disk, url).Some?
    decreases |url|
  {
    assert url[..|url|] == url;
    if url !in disk && |url| > 0 {
      var parentUrl := url[..|url| - 1];
      assert forall i :: 0 <= i <= |parentUrl| ==> parentUrl[..i] == url[..i];
      CreateDirectorySucceeds(disk, parentUrl);
    }
  }

  /** A plain file at `url[..i]` with nothing below it on the way to `url`: creating
      `url` fails. */
  lemma {:induction false} CreateDirectoryFailsUnderFile<P>(disk: Disk<P>, url: Url, i: nat)
    requires i <= |url| && Occupied(disk, url[..i])
    requires forall j :: i < j <= |url| ==> url[..j] !in disk
    ensures CreateDirectory(disk, url).None?
    decreases |url|
  {
    assert url[..|url|] == url;
    if i < |url| {
      var parentUrl := url[..|url| - 1];
      assert forall j :: 0 <= j <= |parentUrl| ==> parentUrl[..j] == url[..j];
      CreateDirectoryFailsUnderFile(disk, parentUrl, i);
    }
  }

  /** `setup()`: keep an existing directory, refuse a file in the way, otherwise create
      the directory together with every missing directory above it. */
  function Setup<P>(dir: Directory, disk: Disk<P>): (r: Result<Disk<P>, SetupError>)
    ensures r.Err? && r.error.FileExistsInDirectoryURL? <==> Occupied(disk, dir.url)
    ensures r.Err? ==> r.error == FileExistsInDirectoryURL(dir.url) || r.error == CreateDirectoryFailed(dir.url)
    ensures r.Err? && r.error.CreateDirectoryFailed? ==> dir.url !in disk
    ensures r.Ok? ==> dir.url in r.value && r.value[dir.url].Folder?
    ensures r.Ok? && dir.url in disk ==> r.value == disk
  {
    if dir.url in disk && disk[dir.url].Folder? then Ok(disk)
    else if dir.url in disk then Err(FileExistsInDirectoryURL(dir.url))
    else
      match CreateDirectory(disk, dir.url)
      case Some(created) => Ok(created)
      case None => Err(CreateDirectoryFailed(dir.url))
  }

  /** `setup()` fails to create its directory only when a plain file sits above it. */
  lemma SetupFailsUnderFile<P>(dir: Directory, disk: Disk<P>)
    requires Setup(dir, disk).Err? && Setup(dir, disk).error.CreateDirectoryFailed?
    ensures exists i :: 0 <= i < |dir.url| && Occupied(disk, dir.url[..i])
  {
    CreateDirectoryFailure(disk, dir.url);
    assert dir.url[..|dir.url|] == dir.url;
  }

  /** What a successful `setup()` changes: every existing path keeps its job entries,
      and the paths it adds are the directory and directories above it, created with no
      job entries, each inside a directory. */
  lemma SetupCreates<P>(dir: Directory, disk: Disk<P>)
    requires Setup(dir, disk).Ok?
    ensures var created := Setup(dir, disk).value;
            && (forall p :: p in disk ==> p in created && created[p] == disk[p])
            && (forall p :: p in created && p !in disk ==> p <= dir.url && created[p] == Folder(map[]))
            && (forall p :: p in created && p !in disk && |p| > 0 ==>
                  p[..|p| - 1] in created && created[p[..|p| - 1]].Folder?)
  {
    if dir.url !in disk {
      assert Setup(dir, disk) == Ok(CreateDirectory(disk, dir.url).value);
      CreateDirectoryEffect(disk, dir.url);
    }
  }

  /** With no plain file at or above the path, `setup()` succeeds. */
  lemma SetupSucceeds<P>(dir: Directory, disk: Disk<P>)
    requires NoFileAbove(disk, dir.url)
    ensures Setup(dir, disk).Ok?
  {
    assert dir.url[..|dir.url|] == dir.url;
    if dir.url !in disk {
      CreateDirectorySucceeds(disk, dir.url);
    }
  }

  /** A successful `setup()` creates no plain file and removes none. */
  lemma SetupKeepsFiles<P>(dir: Directory, disk: Disk<P>)
    requires Setup(dir, disk).Ok?
    ensures forall url :: Occupied(Setup(dir, disk).value, url) <==> Occupied(disk, url)
  {
    SetupCreates(dir, disk);
  }

  /** The job entries of the directory at `url`; nothing when no directory is there. */
  function ContentsAt<P>(disk: Disk<P>, url: Url): (entries: Store<P>) {
    if url in disk && disk[url].Folder? then disk[url].entries else map[]
  }

  /** A successful `setup()` leaves the job entries of every directory as they were:
      the directories it creates hold no job entries. */
  lemma SetupKeepsContents<P>(dir: Directory, disk: Disk<P>)
    requires Setup(dir, disk).Ok?
    ensures forall url :: ContentsAt(Setup(dir, disk).value, url) == ContentsAt(disk, url)
  {
    SetupCreates(dir, disk);
  }

  /** A second `setup()` after a successful one succeeds and changes nothing. */
  lemma SetupIdempotent<P>(dir: Directory, disk: Disk<P>)
    requires Setup(dir, disk).Ok?
    ensures Setup(dir, Setup(dir, disk).value) == Setup(dir, disk)
  {
  }

  /** The names of the entries that decode. */
  function DecodedKeys<P>(store: Store<P>): (names: set<string>)
    ensures names <= store.Keys
    ensures forall name :: name in names <==> name in store && store[name].Encoded?
  {
    set name | name in store && store[name].Encoded?
  }

  /** `names` is a directory listing of `store`: every entry exactly once, in some order. */
  ghost predicate Lists<P>(names: seq<string>, store: Store<P>) {
    && (forall i, j :: 0 <= i < j < |names| ==> names[i] != names[j])
    && (forall i :: 0 <= i < |names| ==> names[i] in store)
    && (forall name :: name in store ==> name in names)
  }

  /** Reading and decoding the payload of the entry called `name`. */
  function DecodedAt<P>(store: Store<P>, name: string): (decoded: Option<Job<P>>) {
    if name in store then Decode(store[name]) else None
  }

  /** `pendingJobs().count` and its siblings: the jobs that decode, taken over a listing. */
  function CountDecoded<P>(store: Store<P>, names: seq<string>): (count: nat)
    decreases |names|
  {
    if |names| == 0 then 0
    else (if DecodedAt(store, names[0]).Some? then 1 else 0) + CountDecoded(store, names[1..])
  }

  /** The set of names a listing mentions. */
  function Named(names: seq<string>): (r: set<string>)
    ensures forall x :: x in r <==> x in names
    decreases |names|
  {
    if |names| == 0 then {} else {names[0]} + Named(names[1..])
  }

  lemma {:induction false} CountDecodedOverDistinctNames<P>(store: Store<P>, names: seq<string>)
    requires forall i, j :: 0 <= i < j < |names| ==> names[i] != names[j]
    ensures CountDecoded(store, names) == |DecodedKeys(store) * Named(names)|
    decreases |names|
  {
    if |names| > 0 {
      var rest := names[1..];
      DistinctTail(names);
      CountDecodedOverDistinctNames(store, rest);
      IntersectionStep(DecodedKeys(store), Named(rest), names[0]);
    }
  }

  lemma DistinctTail(names: seq<string>)
    requires |names| > 0
    requires forall i, j :: 0 <= i < j < |names| ==> names[i] != names[j]
    ensures forall i, j :: 0 <= i < j < |names[1..]| ==> names[1..][i] != names[1..][j]
    ensures names[0] !in names[1..]
  {
    var rest := names[1..];
    forall i, j | 0 <= i < j < |rest| ensures rest[i] != rest[j] {
      assert rest[i] == names[i + 1] && rest[j] == names[j + 1];
    }
  }

  lemma IntersectionStep(d: set<string>, rest: set<string>, a: string)
    requires a !in rest
    ensures a in d ==> |d * ({a} + rest)| == |d * rest| + 1
    ensures a !in d ==> |d * ({a} + rest)| == |d * rest|
  {
    if a in d {
      assert d * ({a} + rest) == (d * rest) + {a};
    } else {
      assert d * ({a} + rest) == d * rest;
    }
  }

  /** Counting over a listing counts exactly the entries that decode. */
  lemma CountDecodedMatches<P>(store: Store<P>, names: seq<string>)
    requires Lists(names, store)
    ensures CountDecoded(store, names) == |DecodedKeys(store)|
    ensures CountDecoded(store, names) <= |store|
  {
    CountDecodedOverDistinctNames(store, names);
    assert DecodedKeys(store) * Named(names) == DecodedKeys(store);
    SubsetCardinality(DecodedKeys(store), store.Keys);
  }

  lemma {:induction false} SubsetCardinality<T>(a: set<T>, b: set<T>)
    requires a <= b
    ensures |a| <= |b|
  {
    assert b == a + (b - a);
  }
}
