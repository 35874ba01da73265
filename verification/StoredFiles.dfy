/**
 The files an upload or an import leaves behind (internal/image/upload.go,
 internal/importer/service.go, internal/platform/storage/filesystem.go), for every outcome of the
 engine, the codec, the renames and the database. Removals are assumed to succeed.
 */
module StoredFiles {
  import opened Base

  type Uuid = nat
  type Name = nat
  type Content = Bytes

  /** The temporary, image and thumbnail directories. */
  datatype Directories = Directories(tmp: map<Name, Content>, images: map<Uuid, Content>, thumbs: map<Uuid, Content>)

  const DEFAULT_MAX_BYTES: nat := 20 * 1024 * 1024

  // ---------------------------------------------------------------- the storage object

  class Filesystem {
    var tmp: map<Name, Content>
    var images: map<Uuid, Content>
    var thumbs: map<Uuid, Content>
    var names: nat

    function Contents(): Directories
      reads this
    {
      Directories(tmp, images, thumbs)
    }

    /** os.CreateTemp picks an unused name. */
    predicate Valid()
      reads this
    {
      forall n :: n in tmp ==> n < names
    }

    constructor ()
      ensures Valid() && Contents() == Directories(map[], map[], map[])
    {
      tmp, images, thumbs, names := map[], map[], map[], 0;
    }

    method CreateTemporary(works: bool) returns (name: Option<Name>)
      requires Valid()
      modifies this
      ensures Valid()
      ensures if works then name.Some? && name.value !in old(tmp)
                            && Contents() == old(Contents()).(tmp := old(tmp)[name.value := []])
              else name.None? && Contents() == old(Contents())
    {
      if !works { return None; }
      name := Some(names);
      tmp, names := tmp[names := []], names + 1;
    }

    method Write(name: Name, content: Content)
      requires Valid() && name in tmp
      modifies this
      ensures Valid() && Contents() == old(Contents()).(tmp := old(tmp)[name := content])
    {
      tmp := tmp[name := content];
    }

    method RemoveTemporary(name: Name)
      requires Valid()
      modifies this
      ensures Valid() && Contents() == old(Contents()).(tmp := old(tmp) - {name})
    {
      tmp := tmp - {name};
    }

    /** Moves a temporary file to a storage key that is not in use. */
    method CommitTemporary(name: Name, key: Uuid, renames: bool) returns (ok: bool)
      requires Valid() && name in tmp
      modifies this
      ensures Valid() && ok == (renames && key !in old(images))
      ensures Contents() == if ok then Directories(old(tmp) - {name}, old(images)[key := old(tmp)[name]], old(thumbs))
                            else old(Contents())
    {
      if key in images || !renames { return false; }
      images, tmp := images[key := tmp[name]], tmp - {name};
      ok := true;
    }

    /** Moves a temporary file over the thumbnail of an image. */
    method CommitThumbnail(name: Name, id: Uuid, renames: bool) returns (ok: bool)
      requires Valid() && name in tmp
      modifies this
      ensures Valid() && ok == renames
      ensures Contents() == if ok then Directories(old(tmp) - {name}, old(images), old(thumbs)[id := old(tmp)[name]])
                            else old(Contents())
    {
      if !renames { return false; }
      thumbs, tmp := thumbs[id := tmp[name]], tmp - {name};
      ok := true;
    }

    method Remove(key: Uuid)
      requires Valid()
      modifies this
      ensures Valid() && Contents() == old(Contents()).(images := old(images) - {key})
    {
      images := images - {key};
    }

    method RemoveThumbnail(id: Uuid)
      requires Valid()
      modifies this
      ensures Valid() && Contents() == old(Contents()).(thumbs := old(thumbs) - {id})
    {
      thumbs := thumbs - {id};
    }
  }

  // ---------------------------------------------------------------- what may happen

  datatype Action = Preserve | Compress | ConvertTo

  datatype ThumbnailFate = Made(content: Content) | Unavailable | ThumbnailFailed

  /** How each call outside this code turns out. */
  datatype StageFate = StageFate(created: bool, copied: bool, closed: bool)

  datatype TransformFate = TransformFate(
    created: bool, closed: bool, transformed: bool, output: Content, stated: bool, fits: bool)

  datatype ThumbFate = ThumbFate(created: bool, closed: bool, made: ThumbnailFate)

  datatype CommitFate = CommitFate(hashed: bool, identified: bool, renamed: bool, thumbRenamed: bool, inserted: bool)

  datatype Fate = Fate(
    optionsValid: bool, gateFree: bool, stage: StageFate, inspected: bool, action: Action,
    transform: TransformFate, thumb: ThumbFate, encoded: bool, aliasAccepted: bool, commit: CommitFate)

  /** Refused is the error of the image inspection, or of an output that is not the planned image. */
  datatype Failure = Failed | Busy | InvalidImage | FileTooLarge | Refused

  /** A compression that does not save space is dropped, and the source kept. */
  predicate Rejected(input: Content, fate: Fate) {
    fate.action.Compress? && |fate.transform.output| >= |input|
  }

  /** What the image file will hold: the source, or the output of the transformation. */
  function Kept(input: Content, fate: Fate): Content {
    if fate.action.Preserve? || Rejected(input, fate) then input else fate.transform.output
  }

  predicate Stages(input: Content, requested: int, fate: StageFate) {
    fate.created && fate.copied && fate.closed && 0 < |input| <= MaxBytes(requested)
  }

  predicate Transforms(input: Content, fate: Fate) {
    && fate.transform.created && fate.transform.closed && fate.transform.transformed && fate.transform.stated
    && (Rejected(input, fate) || fate.transform.fits)
  }

  /** The input is no image, or the output to be kept is not the planned one. */
  predicate Unfit(input: Content, fate: Fate) {
    || !fate.inspected
    || (!fate.action.Preserve? && !Rejected(input, fate) && Outcome(fate.transform) && !fate.transform.fits)
  }

  predicate Outcome(fate: TransformFate) { fate.created && fate.closed && fate.transformed && fate.stated }

  predicate Prepares(input: Content, fate: Fate) {
    && fate.inspected && (fate.action.Preserve? || Transforms(input, fate))
    && fate.thumb.created && fate.thumb.closed && !fate.thumb.made.ThumbnailFailed? && fate.encoded
  }

  predicate Commits(input: Content, fate: Fate) {
    && (fate.action.Preserve? || Rejected(input, fate) || fate.commit.hashed)
    && fate.commit.identified && fate.commit.renamed
    && (fate.thumb.made.Made? ==> fate.commit.thumbRenamed) && fate.commit.inserted
  }

  // ---------------------------------------------------------------- staging

  function MaxBytes(requested: int): nat { if requested <= 0 then DEFAULT_MAX_BYTES else requested }

  method Stage(fs: Filesystem, input: Content, requested: int, fate: StageFate) returns (r: Result<Name, Failure>)
    requires fs.Valid()
    modifies fs
    ensures fs.Valid()
    ensures r.Ok? <==> Stages(input, requested, fate)
    ensures r == Err(FileTooLarge) <==>
      fate.created && fate.copied && fate.closed && |input| > (if requested <= 0 then 20_971_520 else requested)
    ensures r == Err(InvalidImage) <==> fate.created && fate.copied && fate.closed && input == []
    ensures r != Err(Busy) && r != Err(Refused)
    ensures r.Err? ==> fs.Contents() == old(fs.Contents())
    ensures r.Ok? ==> r.value !in old(fs.tmp) && fs.Contents() == old(fs.Contents()).(tmp := old(fs.tmp)[r.value := input])
  {
    var max := MaxBytes(requested);
    var temporary := fs.CreateTemporary(fate.created);
    if temporary.None? { return Err(Failed); }
    // No more than one byte beyond the limit is read.
    var written := if |input| <= max + 1 then input else input[..max + 1];
    fs.Write(temporary.value, written);
    if !fate.copied || !fate.closed || |written| == 0 || |written| > max {
      fs.RemoveTemporary(temporary.value);
      Undone(old(fs.tmp), temporary.value, written);
      return Err(if !fate.copied || !fate.closed then Failed else if |written| == 0 then InvalidImage else FileTooLarge);
    }
    r := Ok(temporary.value);
  }

  lemma Undone(m: map<Name, Content>, n: Name, c: Content)
    requires n !in m
    ensures m[n := []][n := c] == m[n := c] && m[n := c] - {n} == m
  {
  }

  // ---------------------------------------------------------------- preparing

  /** The temporary files to store: the selected image, and a thumbnail unless the engine has none. */
  datatype Prepared = Prepared(selected: Name, thumbnail: Option<Name>)

  /** The selected file when the plan is carried out: a new temporary, or the source when that is kept. */
  method TransformImage(fs: Filesystem, source: Name, action: Action, fate: TransformFate) returns (r: Result<Name, Failure>)
    requires fs.Valid() && source in fs.tmp
    modifies fs
    ensures fs.Valid()
    ensures r.Err? || r.value == source ==> fs.Contents() == old(fs.Contents())
    ensures var rejected := action.Compress? && |fate.output| >= |old(fs.tmp)[source]|;
      && (r.Ok? <==> fate.created && fate.closed && fate.transformed && fate.stated && (rejected || fate.fits))
      && (r.Ok? ==> (r.value == source <==> rejected))
    ensures r.Err? ==> r.error == if Outcome(fate) then Refused else Failed
    ensures r.Ok? && r.value != source ==>
      r.value !in old(fs.tmp) && fs.Contents() == old(fs.Contents()).(tmp := old(fs.tmp)[r.value := fate.output])
  {
    var output := fs.CreateTemporary(fate.created);
    if output.None? { return Err(Failed); }
    ghost var was := old(fs.tmp);
    Undone(was, output.value, []);
    Undone(was, output.value, fate.output);
    if !fate.closed {
      fs.RemoveTemporary(output.value);
      return Err(Failed);
    }
    fs.Write(output.value, fate.output);
    if !fate.transformed || !fate.stated {
      fs.RemoveTemporary(output.value);
      return Err(Failed);
    }
    if action.Compress? && |fs.tmp[output.value]| >= |fs.tmp[source]| {
      fs.RemoveTemporary(output.value);
      return Ok(source);
    }
    if !fate.fits {
      fs.RemoveTemporary(output.value);
      return Err(Refused);
    }
    r := Ok(output.value);
  }

  method MakeThumbnail(fs: Filesystem, fate: ThumbFate) returns (r: Result<Option<Name>, Failure>)
    requires fs.Valid()
    modifies fs
    ensures fs.Valid()
    ensures r.Err? || r.value.None? ==> fs.Contents() == old(fs.Contents())
    ensures r.Ok? <==> fate.created && fate.closed && !fate.made.ThumbnailFailed?
    ensures r.Ok? ==> (r.value.Some? <==> fate.made.Made?)
    ensures r.Ok? && r.value.Some? ==>
      r.value.value !in old(fs.tmp)
      && fs.Contents() == old(fs.Contents()).(tmp := old(fs.tmp)[r.value.value := fate.made.content])
  {
    var thumbnail := fs.CreateTemporary(fate.created);
    if thumbnail.None? { return Err(Failed); }
    Undone(old(fs.tmp), thumbnail.value, []);
    if !fate.closed || !fate.made.Made? {
      fs.RemoveTemporary(thumbnail.value);
      return if !fate.closed || fate.made.ThumbnailFailed? then Err(Failed) else Ok(None);
    }
    fs.Write(thumbnail.value, fate.made.content);
    r := Ok(Some(thumbnail.value));
  }

  /** The source is inspected, transformed when the plan says so, and a thumbnail made. */
  method PrepareImage(fs: Filesystem, source: Name, fate: Fate) returns (r: Result<Prepared, Failure>)
    requires fs.Valid() && source in fs.tmp
    modifies fs
    ensures fs.Valid()
    ensures r.Ok? <==> Prepares(old(fs.tmp)[source], fate)
    ensures r.Err? ==> r.error == if Unfit(old(fs.tmp)[source], fate) then Refused else Failed
    ensures r.Err? ==> fs.Contents() == old(fs.Contents())
    ensures r.Ok? ==> PreparedFrom(old(fs.Contents()), fs.Contents(), source, r.value, fate)
  {
    if !fate.inspected { return Err(Refused); }
    var selected := source;
    if !fate.action.Preserve? {
      var transformed := TransformImage(fs, source, fate.action, fate.transform);
      if transformed.Err? { return Err(transformed.error); }
      selected := transformed.value;
    }
    ghost var middle := fs.tmp;
    var thumbnail := MakeThumbnail(fs, fate.thumb);
    if thumbnail.Err? || !fate.encoded {
      if selected != source { fs.RemoveTemporary(selected); }
      if thumbnail.Ok? && thumbnail.value.Some? { fs.RemoveTemporary(thumbnail.value.value); }
      assert fs.tmp == old(fs.tmp);
      return Err(Failed);
    }
    r := Ok(Prepared(selected, thumbnail.value));
  }

  /** Beside the source at most two new temporaries: the selected image and the thumbnail. */
  predicate PreparedFrom(before: Directories, after: Directories, source: Name, p: Prepared, fate: Fate)
    requires source in before.tmp
  {
    && after == before.(tmp := after.tmp)
    && (p.selected == source <==> fate.action.Preserve? || Rejected(before.tmp[source], fate))
    && (p.selected != source ==> p.selected !in before.tmp)
    && (p.thumbnail.Some? <==> fate.thumb.made.Made?)
    && (p.thumbnail.Some? ==> p.thumbnail.value !in before.tmp && p.thumbnail.value != p.selected)
    && p.selected in after.tmp && after.tmp[p.selected] == Kept(before.tmp[source], fate)
    && (p.thumbnail.Some? ==> p.thumbnail.value in after.tmp && after.tmp[p.thumbnail.value] == fate.thumb.made.content)
    && (forall n :: n in before.tmp ==> n in after.tmp && after.tmp[n] == before.tmp[n])
    && (forall n :: n in after.tmp ==> n in before.tmp || n == p.selected || p.thumbnail == Some(n))
  }

  // ---------------------------------------------------------------- committing

  /** What the row records of the stored file: its key, its size, and (its hash standing for) its content. */
  datatype Stored = Stored(key: Uuid, size: nat, hashed: Content)

  /** From the first rename to the row; on failure the deferred rollback removes what was committed. */
  method CommitFiles(fs: Filesystem, p: Prepared, id: Uuid, fate: CommitFate) returns (r: Result<Stored, Failure>)
    requires fs.Valid() && p.selected in fs.tmp && id !in fs.images && id !in fs.thumbs
    requires p.thumbnail.Some? ==> p.thumbnail.value in fs.tmp && p.thumbnail.value != p.selected
    modifies fs
    ensures fs.Valid()
    ensures r.Ok? <==> fate.renamed && (p.thumbnail.Some? ==> fate.thumbRenamed) && fate.inserted
    ensures fs.tmp - Temporaries(p) == old(fs.tmp) - Temporaries(p)
    ensures r.Err? ==> r.error == Failed && fs.images == old(fs.images) && fs.thumbs == old(fs.thumbs)
    ensures r.Ok? ==>
      var content := old(fs.tmp)[p.selected];
      && r.value == Stored(id, |content|, content)
      && fs.images == old(fs.images)[id := content]
      && fs.thumbs == (if p.thumbnail.Some? then old(fs.thumbs)[id := old(fs.tmp)[p.thumbnail.value]] else old(fs.thumbs))
  {
    var content := fs.tmp[p.selected];
    var renamed := fs.CommitTemporary(p.selected, id, fate.renamed);
    if !renamed { return Err(Failed); }
    var databaseCommitted, thumbnailCommitted := false, false;
    if p.thumbnail.Some? { thumbnailCommitted := fs.CommitThumbnail(p.thumbnail.value, id, fate.thumbRenamed); }
    if p.thumbnail.None? || thumbnailCommitted { databaseCommitted := fate.inserted; }
    if databaseCommitted { return Ok(Stored(id, |content|, content)); }
    fs.Remove(id);
    if thumbnailCommitted { fs.RemoveThumbnail(id); }
    assert fs.images == old(fs.images) && fs.thumbs == old(fs.thumbs);
    r := Err(Failed);
  }

  /** The deferred removals of the selected file and the thumbnail, unless they are gone already. */
  method CommitPrepared(fs: Filesystem, source: Name, p: Prepared, id: Uuid, fate: CommitFate) returns (r: Result<Stored, Failure>)
    requires fs.Valid() && p.selected in fs.tmp && id !in fs.images && id !in fs.thumbs
    requires p.thumbnail.Some? ==> p.thumbnail.value in fs.tmp && p.thumbnail.value != p.selected
    modifies fs
    ensures fs.Valid()
    ensures r.Ok? <==>
      && (p.selected == source || fate.hashed) && fate.identified && fate.renamed
      && (p.thumbnail.Some? ==> fate.thumbRenamed) && fate.inserted
    ensures fs.tmp - {source} == old(fs.tmp) - {source} - Temporaries(p)
    ensures r.Err? ==> r.error == Failed && fs.images == old(fs.images) && fs.thumbs == old(fs.thumbs)
    ensures r.Ok? ==>
      var content := old(fs.tmp)[p.selected];
      && r.value == Stored(id, |content|, content)
      && fs.images == old(fs.images)[id := content]
      && fs.thumbs == (if p.thumbnail.Some? then old(fs.thumbs)[id := old(fs.tmp)[p.thumbnail.value]] else old(fs.thumbs))
  {
    r := Err(Failed);
    if (p.selected == source || fate.hashed) && fate.identified { r := CommitFiles(fs, p, id, fate); }
    ghost var middle := fs.tmp;
    if p.thumbnail.Some? { fs.RemoveTemporary(p.thumbnail.value); }
    if p.selected != source { fs.RemoveTemporary(p.selected); }
    SameBeside(old(fs.tmp), middle, fs.tmp, source, Temporaries(p));
  }

  lemma SameBeside(old0: map<Name, Content>, middle: map<Name, Content>, after: map<Name, Content>, source: Name, gone: set<Name>)
    requires middle - gone == old0 - gone
    requires after - {source} == middle - {source} - gone
    ensures after - {source} == old0 - {source} - gone
  {
    assert middle - {source} - gone == (middle - gone) - {source};
    assert old0 - {source} - gone == (old0 - gone) - {source};
  }

  function Temporaries(p: Prepared): set<Name> {
    {p.selected} + if p.thumbnail.Some? then {p.thumbnail.value} else {}
  }

  // ---------------------------------------------------------------- whole requests

  /** The directories after a success: one new image, at most one new thumbnail, no temporary. */
  predicate Added(before: Directories, after: Directories, s: Stored, content: Content, thumb: ThumbFate) {
    && s == Stored(s.key, |content|, content)
    && after.tmp == before.tmp
    && after.images == before.images[s.key := content]
    && after.thumbs == (if thumb.made.Made? then before.thumbs[s.key := thumb.made.content] else before.thumbs)
  }

  lemma NothingLeft(before: Directories, staged: Directories, prepared: Directories, after: map<Name, Content>, source: Name, input: Content, p: Prepared, fate: Fate)
    requires source !in before.tmp && staged.tmp == before.tmp[source := input]
    requires PreparedFrom(staged, prepared, source, p, fate)
    requires after - {source} == prepared.tmp - {source} - Temporaries(p)
    ensures after - {source} == before.tmp
  {
    forall n ensures n in after - {source} <==> n in before.tmp {
      assert n in after - {source} <==> n in prepared.tmp - {source} - Temporaries(p);
    }
    forall n | n in before.tmp ensures (after - {source})[n] == before.tmp[n] {
      assert n in staged.tmp;
      assert (after - {source})[n] == (prepared.tmp - {source} - Temporaries(p))[n];
    }
  }

  /** Of the requests that reach the staging, the empty ones and the oversized ones get their own errors. */
  predicate EarlyError(input: Content, requested: int, fate: StageFate, r: Result<Stored, Failure>) {
    var read := fate.created && fate.copied && fate.closed;
    && (r == Err(InvalidImage) <==> read && input == [])
    && (r == Err(FileTooLarge) <==> read && |input| > (if requested <= 0 then 20_971_520 else requested))
  }

  /** Whatever happens, a failed upload leaves the directories as they were, a successful one adds its files. */
  method Upload(fs: Filesystem, input: Content, requested: int, id: Uuid, fate: Fate) returns (r: Result<Stored, Failure>)
    requires fs.Valid() && id !in fs.images && id !in fs.thumbs
    modifies fs
    ensures fs.Valid()
    ensures r.Ok? <==> fate.optionsValid && fate.gateFree && Stages(input, requested, fate.stage)
                       && Prepares(input, fate) && Commits(input, fate)
    ensures r == Err(Busy) <==> fate.optionsValid && !fate.gateFree
    ensures fate.optionsValid && fate.gateFree ==> EarlyError(input, requested, fate.stage, r)
    ensures r == Err(Refused) <==>
      fate.optionsValid && fate.gateFree && Stages(input, requested, fate.stage) && Unfit(input, fate)
    ensures r.Err? ==> fs.Contents() == old(fs.Contents())
    ensures r.Ok? ==>
      var content := if fate.action == Preserve || (fate.action == Compress && |fate.transform.output| >= |input|) then input
                     else fate.transform.output;
      && r.value.key == id && Added(old(fs.Contents()), fs.Contents(), r.value, content, fate.thumb)
  {
    if !fate.optionsValid { return Err(Failed); }
    if !fate.gateFree { return Err(Busy); }
    var staged := Stage(fs, input, requested, fate.stage);
    if staged.Err? { return Err(staged.error); }
    r := CommitStaged(fs, staged.value, id, fate, input, old(fs.Contents()));
  }

  /** The staged file is discarded at the end, whether or not it was committed. */
  method CommitStaged(fs: Filesystem, source: Name, id: Uuid, fate: Fate, ghost input: Content, ghost before: Directories)
    returns (r: Result<Stored, Failure>)
    requires fs.Valid() && id !in fs.images && id !in fs.thumbs
    requires source !in before.tmp && fs.Contents() == before.(tmp := before.tmp[source := input])
    modifies fs
    ensures fs.Valid()
    ensures r.Ok? <==> Prepares(input, fate) && Commits(input, fate)
    ensures r.Err? ==> r.error == if Unfit(input, fate) then Refused else Failed
    ensures r.Err? ==> fs.Contents() == before
    ensures r.Ok? ==> r.value.key == id && Added(before, fs.Contents(), r.value, Kept(input, fate), fate.thumb)
  {
    ghost var staged := fs.Contents();
    var prepared := PrepareImage(fs, source, fate);
    if prepared.Err? {
      fs.RemoveTemporary(source);
      assert fs.tmp == before.tmp;
      return Err(prepared.error);
    }
    ghost var middle := fs.Contents();
    r := CommitPrepared(fs, source, prepared.value, id, fate.commit);
    NothingLeft(before, staged, middle, fs.tmp, source, input, prepared.value, fate);
    fs.RemoveTemporary(source);
  }

  /** An import keeps the source as it is, and refuses an alias that is malformed or already taken. */
  method Import(fs: Filesystem, input: Content, requested: int, id: Uuid, fate: Fate) returns (r: Result<Stored, Failure>)
    requires fs.Valid() && id !in fs.images && id !in fs.thumbs
    modifies fs
    ensures fs.Valid()
    ensures r.Ok? <==> fate.optionsValid && fate.gateFree && Stages(input, requested, fate.stage) && fate.aliasAccepted
                       && Prepares(input, Plain(fate)) && Commits(input, Plain(fate))
    ensures r == Err(Busy) <==> fate.optionsValid && !fate.gateFree
    ensures fate.optionsValid && fate.gateFree ==> EarlyError(input, requested, fate.stage, r)
    ensures r == Err(Refused) <==> fate.optionsValid && fate.gateFree && Stages(input, requested, fate.stage)
                                   && fate.aliasAccepted && !fate.inspected
    ensures r.Err? ==> fs.Contents() == old(fs.Contents())
    ensures r.Ok? ==> r.value.key == id && Added(old(fs.Contents()), fs.Contents(), r.value, input, fate.thumb)
  {
    if !fate.optionsValid { return Err(Failed); }
    if !fate.gateFree { return Err(Busy); }
    var staged := Stage(fs, input, requested, fate.stage);
    if staged.Err? { return Err(staged.error); }
    if !fate.aliasAccepted {
      fs.RemoveTemporary(staged.value);
      assert fs.tmp == old(fs.tmp);
      return Err(Failed);
    }
    r := CommitStaged(fs, staged.value, id, Plain(fate), input, old(fs.Contents()));
  }

  function Plain(fate: Fate): Fate { fate.(action := Preserve) }

  // ---------------------------------------------------------------- conversion

  datatype ConvertFate = ConvertFate(
    inspected: bool, gateFree: bool, created: bool, closed: bool, transformed: bool, output: Content, fits: bool, hashed: bool,
    thumb: ThumbFate, identified: bool, renamed: bool, encoded: bool, updated: bool, thumbRenamed: bool)

  predicate Outputs(f: ConvertFate) {
    f.gateFree && f.inspected && f.created && f.closed && f.transformed && f.fits && f.hashed
  }

  predicate Converts(f: ConvertFate) {
    && Outputs(f) && f.thumb.created && f.thumb.closed && !f.thumb.made.ThumbnailFailed?
    && f.identified && f.renamed && f.encoded && f.updated
  }

  /**
   The deferred removal is told to forget the thumbnail temporary when the engine has no
   thumbnails, so exactly then one empty temporary stays behind.
   */
  predicate LeavesTemporary(f: ConvertFate) {
    Outputs(f) && f.thumb.created && f.thumb.closed && f.thumb.made.Unavailable?
  }

  /** The thumbnails after a conversion of image `id`. */
  function ThumbsConverted(thumbs: map<Uuid, Content>, id: Uuid, f: ConvertFate): map<Uuid, Content> {
    match f.thumb.made
    case Made(c) => if f.thumbRenamed then thumbs[id := c] else thumbs
    case _ => thumbs - {id}
  }

  /** The converted file replaces the one under `key`; a failure changes neither images nor thumbnails. */
  method ConvertToWebP(fs: Filesystem, key: Uuid, id: Uuid, newKey: Uuid, fate: ConvertFate)
    returns (r: Result<Stored, Failure>, ghost left: set<Name>)
    requires fs.Valid() && key in fs.images && newKey !in fs.images
    modifies fs
    ensures fs.Valid()
    ensures r.Ok? <==> Converts(fate)
    ensures r == Err(Busy) <==> !fate.gateFree
    ensures r == Err(Refused) <==>
      fate.gateFree && (!fate.inspected || (fate.created && fate.closed && fate.transformed && !fate.fits))
    ensures r.Err? ==> fs.images == old(fs.images) && fs.thumbs == old(fs.thumbs)
    ensures r.Ok? ==>
      && r.value == Stored(newKey, |fate.output|, fate.output)
      && fs.images == old(fs.images)[newKey := fate.output] - {key}
      && fs.thumbs == ThumbsConverted(old(fs.thumbs), id, fate)
    ensures fs.tmp - left == old(fs.tmp) && left !! old(fs.tmp).Keys
    ensures if LeavesTemporary(fate) then |left| == 1 && left <= fs.tmp.Keys else left == {}
  {
    left := {};
    if !fate.gateFree { return Err(Busy), {}; }
    if !fate.inspected { return Err(Refused), {}; }
    var output := fs.CreateTemporary(fate.created);
    if output.None? { return Err(Failed), {}; }
    fs.Write(output.value, fate.output);
    Undone(old(fs.tmp), output.value, fate.output);
    if !fate.closed || !fate.transformed || !fate.fits || !fate.hashed {
      fs.RemoveTemporary(output.value);
      return Err(if fate.closed && fate.transformed && !fate.fits then Refused else Failed), {};
    }
    r, left := ReplaceImage(fs, output.value, key, id, newKey, fate, old(fs.tmp));
  }

  /** The rest of a conversion: a thumbnail, unless the engine has none, then the commit. */
  method ReplaceImage(fs: Filesystem, output: Name, key: Uuid, id: Uuid, newKey: Uuid, fate: ConvertFate, ghost tmp: map<Name, Content>)
    returns (r: Result<Stored, Failure>, ghost left: set<Name>)
    requires fs.Valid() && key in fs.images && newKey !in fs.images && Outputs(fate)
    requires output !in tmp && fs.tmp == tmp[output := fate.output]
    modifies fs
    ensures fs.Valid()
    ensures r.Ok? <==> Converts(fate)
    ensures r.Err? ==> r.error == Failed && fs.images == old(fs.images) && fs.thumbs == old(fs.thumbs)
    ensures r.Ok? ==>
      && r.value == Stored(newKey, |fate.output|, fate.output)
      && fs.images == old(fs.images)[newKey := fate.output] - {key}
      && fs.thumbs == ThumbsConverted(old(fs.thumbs), id, fate)
    ensures fs.tmp - left == tmp && left !! tmp.Keys
    ensures if LeavesTemporary(fate) then |left| == 1 && left <= fs.tmp.Keys else left == {}
  {
    var thumbnail;
    thumbnail, left := ThumbnailOrForget(fs, fate.thumb);
    ghost var middle := fs.tmp;
    if thumbnail.Err? {
      fs.RemoveTemporary(output);
      r := Err(Failed);
    } else {
      assert output in fs.tmp - left - Listed(thumbnail.value);
      r := ReplaceContent(fs, output, thumbnail.value, key, id, newKey, fate);
      OnlyLeft(middle, old(fs.tmp), tmp, output, fate.output, left, thumbnail.value);
    }
  }

  function Listed(thumbnail: Option<Name>): set<Name> { if thumbnail.Some? then {thumbnail.value} else {} }

  /** `tmp` holds what `before` does, the thumbnail, and what is left behind. */
  predicate Extras(tmp: map<Name, Content>, before: map<Name, Content>, left: set<Name>, thumbnail: Option<Name>) {
    && left + Listed(thumbnail) <= tmp.Keys && left + Listed(thumbnail) !! before.Keys
    && tmp - left - Listed(thumbnail) == before && left !! Listed(thumbnail)
  }

  lemma OnlyLeft(tmp: map<Name, Content>, before: map<Name, Content>, base: map<Name, Content>, output: Name, c: Content, left: set<Name>, thumbnail: Option<Name>)
    requires Extras(tmp, before, left, thumbnail) && output !in base && before == base[output := c]
    ensures var after := tmp - ({output} + Listed(thumbnail));
      after - left == base && left !! base.Keys && left <= after.Keys
  {
    var after := tmp - ({output} + Listed(thumbnail));
    assert after - left == (tmp - left - Listed(thumbnail)) - {output};
    assert before - {output} == base;
  }

  method ThumbnailOrForget(fs: Filesystem, fate: ThumbFate) returns (r: Result<Option<Name>, Failure>, ghost left: set<Name>)
    requires fs.Valid()
    modifies fs
    ensures fs.Valid() && fs.images == old(fs.images) && fs.thumbs == old(fs.thumbs)
    ensures r.Ok? <==> fate.created && fate.closed && !fate.made.ThumbnailFailed?
    ensures r.Err? ==> fs.tmp == old(fs.tmp)
    ensures r.Ok? ==> (r.value.Some? <==> fate.made.Made?)
    ensures if r.Ok? && r.value.None? then |left| == 1 else left == {}
    ensures r.Ok? && r.value.Some? ==> r.value.value in fs.tmp && fs.tmp[r.value.value] == fate.made.content
    ensures r.Ok? ==> Extras(fs.tmp, old(fs.tmp), left, r.value)
  {
    left := {};
    var created := fs.CreateTemporary(fate.created);
    if created.None? { return Err(Failed), {}; }
    Undone(old(fs.tmp), created.value, []);
    if !fate.closed || fate.made.ThumbnailFailed? {
      fs.RemoveTemporary(created.value);
      return Err(Failed), {};
    }
    if fate.made.Unavailable? { return Ok(None), {created.value}; }
    fs.Write(created.value, fate.made.content);
    r := Ok(created);
  }

  method ReplaceContent(fs: Filesystem, output: Name, thumbnail: Option<Name>, key: Uuid, id: Uuid, newKey: Uuid, fate: ConvertFate)
    returns (r: Result<Stored, Failure>)
    requires fs.Valid() && key in fs.images && newKey !in fs.images && output in fs.tmp
    requires thumbnail.Some? ==> thumbnail.value in fs.tmp && thumbnail.value != output
    modifies fs
    ensures fs.Valid()
    ensures r.Ok? <==> fate.identified && fate.renamed && fate.encoded && fate.updated
    ensures r.Err? ==> r.error == Failed && fs.images == old(fs.images) && fs.thumbs == old(fs.thumbs)
    ensures r.Ok? ==>
      var content := old(fs.tmp)[output];
      && r.value == Stored(newKey, |content|, content)
      && fs.images == old(fs.images)[newKey := content] - {key}
      && fs.thumbs == (if thumbnail.None? then old(fs.thumbs) - {id}
                       else if fate.thumbRenamed then old(fs.thumbs)[id := old(fs.tmp)[thumbnail.value]]
                       else old(fs.thumbs))
    ensures fs.tmp == old(fs.tmp) - ({output} + Listed(thumbnail))
  {
    r := Err(Failed);
    var forget := false;
    if fate.identified {
      var content := fs.tmp[output];
      var renamed := fs.CommitTemporary(output, newKey, fate.renamed);
      if renamed {
        if fate.encoded && fate.updated {
          if thumbnail.Some? { forget := fs.CommitThumbnail(thumbnail.value, id, fate.thumbRenamed); }
          else { fs.RemoveThumbnail(id); }
          fs.Remove(key);
          r := Ok(Stored(newKey, |content|, content));
        } else {
          fs.Remove(newKey);
          assert fs.images == old(fs.images);
        }
      }
    }
    if thumbnail.Some? && !forget { fs.RemoveTemporary(thumbnail.value); }
    fs.RemoveTemporary(output);
  }
}
