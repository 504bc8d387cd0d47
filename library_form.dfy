/**
 * The decision logic of the form that creates or edits a library (a watched
 * directory with scan and conversion options): the validation rules of its
 * schema, the values it starts from, how submitted tags are split into
 * catalogue tags and tags still to create, and the create and edit requests
 * it builds on submission.
 */
module LibraryForm {
  import opened Wrappers

  // ---------------------------------------------------------------------
  // JavaScript array operations the form is written with
  // ---------------------------------------------------------------------

  /** `Array.prototype.some`: whether some element satisfies `p`. */
  function Any<T>(s: seq<T>, p: T -> bool): (r: bool)
    ensures r <==> exists i :: 0 <= i < |s| && p(s[i])
  {
    if s == [] then false
    else if p(s[0]) then true
    else
      var rest := Any(s[1..], p);
      assert forall i :: 1 <= i < |s| ==> s[i] == s[1..][i - 1];
      rest
  }

  /** `r` is `s` with some elements deleted, the others kept in their order. */
  predicate IsSubsequence<T(==)>(r: seq<T>, s: seq<T>)
    decreases |s|
  {
    if r == [] then true
    else if s == [] then false
    else if r[0] == s[0] then IsSubsequence(r[1..], s[1..])
    else IsSubsequence(r, s[1..])
  }

  /**
   * `Array.prototype.filter`: the elements of `s` that satisfy `p`, each as
   * often as it occurs in `s`, in the order of `s`.
   */
  function Filter<T(==)>(s: seq<T>, p: T -> bool): (r: seq<T>)
    ensures forall x :: x in r ==> x in s && p(x)
    ensures forall x :: x in s ==> multiset(r)[x] == if p(x) then multiset(s)[x] else 0
    ensures IsSubsequence(r, s)
  {
    if s == [] then []
    else
      var rest := Filter(s[1..], p);
      assert s == [s[0]] + s[1..];
      if p(s[0]) then
        var r := [s[0]] + rest;
        assert r[1..] == rest;
        r
      else
        rest
  }

  /** In terms of membership, `Filter` keeps exactly the elements satisfying `p`. */
  lemma FilterMembership<T>(s: seq<T>, p: T -> bool, x: T)
    ensures x in Filter(s, p) <==> x in s && p(x)
  {
    var r := Filter(s, p);
    assert x in r <==> multiset(r)[x] > 0;
    assert x in s <==> multiset(s)[x] > 0;
  }

  // ---------------------------------------------------------------------
  // Entities
  // ---------------------------------------------------------------------

  /** How a library groups its files into series. */
  datatype LibraryPattern = SeriesBased | CollectionBased

  /** How the server scans a library's directory. */
  datatype LibraryScanMode = Sync | Batched | NoScan

  /** The wire name of a pattern. */
  function PatternName(p: LibraryPattern): string {
    match p
    case SeriesBased => "SERIES_BASED"
    case CollectionBased => "COLLECTION_BASED"
  }

  /** The wire name of a scan mode. */
  function ScanModeName(m: LibraryScanMode): string {
    match m
    case Sync => "SYNC"
    case Batched => "BATCHED"
    case NoScan => "NONE"
  }

  /** A tag, shared by all libraries and keyed by its name. */
  datatype Tag = Tag(id: string, name: string)

  /** The options record embedded in a library. */
  datatype LibraryOptions = LibraryOptions(
    id: string,
    libraryId: string,
    convertRarToZip: bool,
    createWebpThumbnails: bool,
    hardDeleteConversions: bool,
    libraryPattern: LibraryPattern)

  /** A persisted library. */
  datatype Library = Library(
    id: string,
    name: string,
    path: string,
    description: Option<string>,
    status: string,
    updatedAt: string,
    tags: Option<seq<Tag>>,
    libraryOptions: LibraryOptions)

  /** An entry of the tag selector: a label and the tag name it stands for. */
  datatype TagOption = TagOption(labelText: string, value: string)

  /**
   * What the form holds at submission, before the schema applies its
   * defaults: the fields with a schema default may be absent.
   */
  datatype RawValues = RawValues(
    convertRarToZip: Option<bool>,
    createWebpThumbnails: Option<bool>,
    description: Option<string>,
    hardDeleteConversions: Option<bool>,
    libraryPattern: Option<string>,
    name: string,
    path: string,
    scanMode: Option<string>,
    tags: Option<seq<TagOption>>)

  /** The form values once the schema has applied its defaults. */
  datatype FormValues = FormValues(
    convertRarToZip: bool,
    createWebpThumbnails: bool,
    description: Option<string>,
    hardDeleteConversions: bool,
    libraryPattern: string,
    name: string,
    path: string,
    scanMode: string,
    tags: Option<seq<TagOption>>)

  /** The values the form starts from; name and path are absent in create mode. */
  datatype FormDefaults = FormDefaults(
    convertRarToZip: bool,
    createWebpThumbnails: bool,
    description: Option<string>,
    hardDeleteConversions: bool,
    libraryPattern: string,
    name: Option<string>,
    path: Option<string>,
    scanMode: string,
    tags: Option<seq<TagOption>>)

  // ---------------------------------------------------------------------
  // Enumeration guards
  // ---------------------------------------------------------------------

  /**
   * The scan-mode guard: one of the three modes, or the empty (falsy) string;
   * so it admits exactly the names of the scan modes and "".
   */
  predicate IsLibraryScanMode(input: string): (r: bool)
    ensures r <==> input == "" || exists m :: ScanModeName(m) == input
  {
    if input == "SYNC" then assert ScanModeName(Sync) == input; true
    else if input == "BATCHED" then assert ScanModeName(Batched) == input; true
    else if input == "NONE" then assert ScanModeName(NoScan) == input; true
    else input == ""
  }

  /**
   * The pattern guard: one of the two patterns, or the empty (falsy) string;
   * so it admits exactly the names of the patterns and "".
   */
  predicate IsLibraryPattern(input: string): (r: bool)
    ensures r <==> input == "" || exists p :: PatternName(p) == input
  {
    if input == "SERIES_BASED" then assert PatternName(SeriesBased) == input; true
    else if input == "COLLECTION_BASED" then assert PatternName(CollectionBased) == input; true
    else input == ""
  }

  // ---------------------------------------------------------------------
  // Name and path rules
  // ---------------------------------------------------------------------

  /** JavaScript `s.startsWith(prefix)`: a plain character prefix test. */
  predicate StartsWith(s: string, prefix: string) {
    prefix <= s
  }

  /**
   * The name rule fails: some existing library already has this name, and the
   * library being edited (if any) does not.
   */
  predicate NameTaken(name: string, existing: seq<Library>, library: Option<Library>): (r: bool)
    ensures r <==>
      (exists i :: 0 <= i < |existing| && existing[i].name == name)
      && (library.None? || library.value.name != name)
  {
    Any(existing, (l: Library) => l.name == name)
      && !(library.Some? && library.value.name == name)
  }

  /**
   * The path rule fails: some existing library's path starts with this path,
   * and the library being edited (if any) does not have exactly this path.
   */
  predicate PathClashes(path: string, existing: seq<Library>, library: Option<Library>): (r: bool)
    ensures r <==>
      (exists i :: 0 <= i < |existing| && |path| <= |existing[i].path|
                   && existing[i].path[..|path|] == path)
      && (library.None? || library.value.path != path)
  {
    Any(existing, (l: Library) => StartsWith(l.path, path))
      && !(library.Some? && library.value.path == path)
  }

  /** Re-saving the edited library under its own name passes, whatever else exists. */
  lemma OwnNameAccepted(library: Library, existing: seq<Library>)
    ensures !NameTaken(library.name, existing, Some(library))
  {
  }

  /** Keeping the edited library's own path passes, whatever else exists. */
  lemma OwnPathAccepted(library: Library, existing: seq<Library>)
    ensures !PathClashes(library.path, existing, Some(library))
  {
  }

  /**
   * The path rule compares characters, not path components: an existing
   * library at "/ab" refuses a new library at "/a", as it refuses "/ab" itself.
   */
  lemma PrefixNotPerComponent(other: Library)
    requires other.path == "/ab"
    ensures PathClashes("/a", [other], None)
    ensures PathClashes("/ab", [other], None)
  {
    assert StartsWith(other.path, "/a");
    assert StartsWith(other.path, "/ab");
  }

  /**
   * Only a new path that is a prefix of an existing one is refused: a path
   * below an existing library ("/a/b" under "/a") passes the rule.
   */
  lemma ChildPathNotRefused(other: Library)
    requires other.path == "/a"
    ensures !PathClashes("/a/b", [other], None)
  {
    assert !StartsWith(other.path, "/a/b");
  }

  /** The empty path is a prefix of every path, so it also fails the path rule. */
  lemma EmptyPathClashes(existing: seq<Library>, library: Option<Library>)
    requires |existing| > 0
    requires library.None? || library.value.path != ""
    ensures PathClashes("", existing, library)
  {
    assert StartsWith(existing[0].path, "");
  }

  // ---------------------------------------------------------------------
  // The schema
  // ---------------------------------------------------------------------

  /** A validation failure, attached to one field. */
  datatype Issue =
    | InvalidPattern
    | NameRequired
    | NameAlreadyTaken(name: string)
    | PathRequired
    | ParentPathExists
    | InvalidScanMode
  {
    /**
     * The message shown under the field: never empty, the taken name quoted
     * between a fixed lead-in and a full stop, and the enumerations sharing
     * the validator's default message.
     */
    function Message(): (m: string)
      ensures |m| > 0
      ensures NameAlreadyTaken? ==>
        && |m| == 34 + |name|
        && m[..33] == "You already have a library named "
        && m[33..|m| - 1] == name
        && m[|m| - 1] == '.'
      ensures NameRequired? ==> m == "Library name is required"
      ensures PathRequired? ==> m == "Library path is required"
      ensures ParentPathExists? ==> m == "Invalid library, parent directory already exists as library."
      ensures InvalidPattern? || InvalidScanMode? ==> m == "Invalid input"
    {
      match this
      case InvalidPattern => "Invalid input"
      case NameRequired => "Library name is required"
      case NameAlreadyTaken(name) => "You already have a library named " + name + "."
      case PathRequired => "Library path is required"
      case ParentPathExists => "Invalid library, parent directory already exists as library."
      case InvalidScanMode => "Invalid input"
    }
  }

  const DefaultFlag: bool := false
  const DefaultPattern: string := "SERIES_BASED"
  const DefaultScanMode: string := "BATCHED"

  /** The schema fills the fields left absent with its defaults. */
  function ApplySchemaDefaults(raw: RawValues): (v: FormValues)
    ensures v.name == raw.name && v.path == raw.path
    ensures v.description == raw.description && v.tags == raw.tags
    ensures v.convertRarToZip == (if raw.convertRarToZip.Some? then raw.convertRarToZip.value else false)
    ensures v.createWebpThumbnails == (if raw.createWebpThumbnails.Some? then raw.createWebpThumbnails.value else false)
    ensures v.hardDeleteConversions == (if raw.hardDeleteConversions.Some? then raw.hardDeleteConversions.value else false)
    ensures v.libraryPattern == (if raw.libraryPattern.Some? then raw.libraryPattern.value else "SERIES_BASED")
    ensures v.scanMode == (if raw.scanMode.Some? then raw.scanMode.value else "BATCHED")
  {
    FormValues(
      convertRarToZip := raw.convertRarToZip.GetOr(DefaultFlag),
      createWebpThumbnails := raw.createWebpThumbnails.GetOr(DefaultFlag),
      description := raw.description,
      hardDeleteConversions := raw.hardDeleteConversions.GetOr(DefaultFlag),
      libraryPattern := raw.libraryPattern.GetOr(DefaultPattern),
      name := raw.name,
      path := raw.path,
      scanMode := raw.scanMode.GetOr(DefaultScanMode),
      tags := raw.tags)
  }

  /** Every rule of the schema holds of the values. */
  predicate PassesRules(v: FormValues, existing: seq<Library>, library: Option<Library>) {
    && IsLibraryPattern(v.libraryPattern)
    && v.name != ""
    && !NameTaken(v.name, existing, library)
    && v.path != ""
    && !PathClashes(v.path, existing, library)
    && IsLibraryScanMode(v.scanMode)
  }

  /** The issue `issue`, reported when `fails` holds. */
  function Check(fails: bool, issue: Issue): (r: seq<Issue>)
    ensures forall i :: i in r <==> fails && i == issue
  {
    if fails then [issue] else []
  }

  /**
   * The issues the schema reports, in the order of its fields. A field's
   * refinement runs even when its minimum-length check has failed.
   */
  function Issues(v: FormValues, existing: seq<Library>, library: Option<Library>): (issues: seq<Issue>)
    ensures issues == [] <==> PassesRules(v, existing, library)
    ensures InvalidPattern in issues <==> !IsLibraryPattern(v.libraryPattern)
    ensures NameRequired in issues <==> v.name == ""
    ensures NameAlreadyTaken(v.name) in issues <==> NameTaken(v.name, existing, library)
    ensures PathRequired in issues <==> v.path == ""
    ensures ParentPathExists in issues <==> PathClashes(v.path, existing, library)
    ensures InvalidScanMode in issues <==> !IsLibraryScanMode(v.scanMode)
  {
    var badPattern := !IsLibraryPattern(v.libraryPattern);
    var taken := NameTaken(v.name, existing, library);
    var clashes := PathClashes(v.path, existing, library);
    var badScanMode := !IsLibraryScanMode(v.scanMode);
    Check(badPattern, InvalidPattern)
    + Check(v.name == "", NameRequired)
    + Check(taken, NameAlreadyTaken(v.name))
    + Check(v.path == "", PathRequired)
    + Check(clashes, ParentPathExists)
    + Check(badScanMode, InvalidScanMode)
  }

  /** Parsing with the schema: the defaulted values, or the issues found. */
  function Parse(raw: RawValues, existing: seq<Library>, library: Option<Library>): (r: Result<FormValues, seq<Issue>>)
    ensures r.Success? <==> PassesRules(ApplySchemaDefaults(raw), existing, library)
    ensures r.Success? ==> r.value == ApplySchemaDefaults(raw)
    ensures r.Failure? ==> r.error != []
  {
    var v := ApplySchemaDefaults(raw);
    var issues := Issues(v, existing, library);
    if issues == [] then Success(v) else Failure(issues)
  }

  /** An empty name or an empty path is always refused. */
  lemma EmptyNameOrPathRefused(raw: RawValues, existing: seq<Library>, library: Option<Library>)
    requires raw.name == "" || raw.path == ""
    ensures Parse(raw, existing, library).Failure?
    ensures raw.name == "" ==> NameRequired in Parse(raw, existing, library).error
    ensures raw.path == "" ==> PathRequired in Parse(raw, existing, library).error
  {
  }

  // ---------------------------------------------------------------------
  // Default values of the form
  // ---------------------------------------------------------------------

  /** The names of a library's tags, as selector entries. */
  function TagOptionsOf(tags: seq<Tag>): (r: seq<TagOption>)
    ensures |r| == |tags|
    ensures forall i :: 0 <= i < |r| ==> r[i].labelText == tags[i].name && r[i].value == tags[i].name
  {
    seq(|tags|, i requires 0 <= i < |tags| => TagOption(tags[i].name, tags[i].name))
  }

  /**
   * The form's starting values: the edited library's, or the create-mode
   * defaults; the scan mode starts at "BATCHED" in both modes.
   */
  function DefaultValues(library: Option<Library>): (d: FormDefaults)
    ensures d.scanMode == "BATCHED"
    ensures library.None? ==>
      && !d.convertRarToZip && !d.createWebpThumbnails && !d.hardDeleteConversions
      && d.libraryPattern == "SERIES_BASED"
      && d.name.None? && d.path.None? && d.description.None? && d.tags.None?
    ensures library.Some? ==>
      var lib := library.value;
      && d.convertRarToZip == lib.libraryOptions.convertRarToZip
      && d.createWebpThumbnails == lib.libraryOptions.createWebpThumbnails
      && d.hardDeleteConversions == lib.libraryOptions.hardDeleteConversions
      && d.libraryPattern == PatternName(lib.libraryOptions.libraryPattern)
      && d.name == Some(lib.name) && d.path == Some(lib.path)
      && d.description == lib.description
      && d.tags == (if lib.tags.Some? then Some(TagOptionsOf(lib.tags.value)) else None)
  {
    match library
    case None =>
      FormDefaults(false, false, None, false, "SERIES_BASED", None, None, "BATCHED", None)
    case Some(lib) =>
      FormDefaults(
        convertRarToZip := lib.libraryOptions.convertRarToZip,
        createWebpThumbnails := lib.libraryOptions.createWebpThumbnails,
        description := lib.description,
        hardDeleteConversions := lib.libraryOptions.hardDeleteConversions,
        libraryPattern := PatternName(lib.libraryOptions.libraryPattern),
        name := Some(lib.name),
        path := Some(lib.path),
        scanMode := "BATCHED",
        tags := match lib.tags case None => None case Some(ts) => Some(TagOptionsOf(ts)))
  }

  /**
   * In create mode the form starts from the same flags, pattern and scan mode
   * that the schema would fill in for absent fields.
   */
  lemma CreateDefaultsMatchSchema(name: string, path: string)
    ensures
      var d := DefaultValues(None);
      var v := ApplySchemaDefaults(RawValues(None, None, None, None, None, name, path, None, None));
      && d.convertRarToZip == v.convertRarToZip
      && d.createWebpThumbnails == v.createWebpThumbnails
      && d.hardDeleteConversions == v.hardDeleteConversions
      && d.libraryPattern == v.libraryPattern
      && d.scanMode == v.scanMode
  {
  }

  /**
   * In edit mode every starting value the rules look at passes them: the own
   * name and path are exempt, the pattern and scan mode are admitted names.
   */
  lemma EditDefaultsPassRules(library: Library, existing: seq<Library>)
    ensures
      var d := DefaultValues(Some(library));
      && d.name.Some? && !NameTaken(d.name.value, existing, Some(library))
      && d.path.Some? && !PathClashes(d.path.value, existing, Some(library))
      && IsLibraryPattern(d.libraryPattern)
      && IsLibraryScanMode(d.scanMode)
  {
    OwnNameAccepted(library, existing);
    OwnPathAccepted(library, existing);
  }

  // ---------------------------------------------------------------------
  // Tags
  // ---------------------------------------------------------------------

  /** The tag names the selector holds. */
  function TagValues(formTags: seq<TagOption>): (r: seq<string>)
    ensures |r| == |formTags|
    ensures forall i :: 0 <= i < |r| ==> r[i] == formTags[i].value
  {
    seq(|formTags|, i requires 0 <= i < |formTags| => formTags[i].value)
  }

  /** Whether a catalogue tag is among the selected ones (false when none are given). */
  predicate Selected(formTags: Option<seq<TagOption>>, tag: Tag) {
    formTags.Some? && Any(formTags.value, (t: TagOption) => t.value == tag.name)
  }

  /** The catalogue tags named in the form, in catalogue order. */
  function SelectedTags(catalogue: seq<Tag>, formTags: Option<seq<TagOption>>): (r: seq<Tag>)
    ensures IsSubsequence(r, catalogue)
    ensures forall t :: t in r ==> t in catalogue && Selected(formTags, t)
  {
    Filter(catalogue, (tag: Tag) => Selected(formTags, tag))
  }

  /** Whether some tag of `tags` has this name. */
  predicate HasTagNamed(tags: seq<Tag>, name: string) {
    Any(tags, (t: Tag) => t.name == name)
  }

  /** The split of the submitted tags into catalogue tags and names to create. */
  datatype TagPartition = TagPartition(existingTags: seq<Tag>, tagsToCreate: Option<seq<string>>)

  function PartitionTags(catalogue: seq<Tag>, formTags: Option<seq<TagOption>>): (p: TagPartition)
    ensures p.tagsToCreate.Some? <==> formTags.Some?
    ensures p.tagsToCreate.Some? ==> forall n :: n in p.tagsToCreate.value ==> !HasTagNamed(p.existingTags, n)
  {
    var existingTags := SelectedTags(catalogue, formTags);
    var tagsToCreate :=
      match formTags
      case None => None
      case Some(ft) => Some(Filter(TagValues(ft), (n: string) => !HasTagNamed(existingTags, n)));
    TagPartition(existingTags, tagsToCreate)
  }

  /** A catalogue tag is selected iff its name is one of the submitted names. */
  lemma SelectedIff(formTags: seq<TagOption>, tag: Tag)
    ensures Selected(Some(formTags), tag) <==> tag.name in TagValues(formTags)
  {
    var vs := TagValues(formTags);
    if tag.name in vs {
      var i :| 0 <= i < |vs| && vs[i] == tag.name;
      assert formTags[i].value == tag.name;
    }
  }

  /**
   * `existingTags` is the part of the catalogue, in catalogue order, whose
   * names were submitted; with no submitted tags it is empty.
   */
  lemma SelectedTagsSpec(catalogue: seq<Tag>, formTags: Option<seq<TagOption>>)
    ensures IsSubsequence(SelectedTags(catalogue, formTags), catalogue)
    ensures forall t :: t in SelectedTags(catalogue, formTags) <==>
      t in catalogue && formTags.Some? && t.name in TagValues(formTags.value)
    ensures forall t ::
      multiset(SelectedTags(catalogue, formTags))[t] == (if formTags.Some? && t.name in TagValues(formTags.value) then multiset(catalogue)[t] else 0)
    ensures formTags.None? ==> SelectedTags(catalogue, formTags) == []
  {
    var sel := (tag: Tag) => Selected(formTags, tag);
    var existingTags := SelectedTags(catalogue, formTags);
    forall t
      ensures t in existingTags <==>
        t in catalogue && formTags.Some? && t.name in TagValues(formTags.value)
      ensures multiset(existingTags)[t] ==
        if formTags.Some? && t.name in TagValues(formTags.value) then multiset(catalogue)[t] else 0
    {
      FilterMembership(catalogue, sel, t);
      if formTags.Some? {
        SelectedIff(formTags.value, t);
      }
      if t !in catalogue {
        assert t !in existingTags;
      }
    }
  }

  /** A name is carried by a selected tag iff it was submitted and the catalogue has it. */
  lemma SelectedNamesIff(catalogue: seq<Tag>, formTags: seq<TagOption>, n: string)
    ensures HasTagNamed(SelectedTags(catalogue, Some(formTags)), n) <==>
      n in TagValues(formTags) && HasTagNamed(catalogue, n)
  {
    var existingTags := SelectedTags(catalogue, Some(formTags));
    SelectedTagsSpec(catalogue, Some(formTags));
    if HasTagNamed(existingTags, n) {
      var i :| 0 <= i < |existingTags| && existingTags[i].name == n;
      assert existingTags[i] in existingTags;
    }
    if n in TagValues(formTags) && HasTagNamed(catalogue, n) {
      var j :| 0 <= j < |catalogue| && catalogue[j].name == n;
      assert catalogue[j] in existingTags;
      var k :| 0 <= k < |existingTags| && existingTags[k] == catalogue[j];
    }
  }

  /**
   * `tagsToCreate` is the part of the submitted names, in submitted order and
   * with their repetitions, that no catalogue tag has.
   */
  lemma TagsToCreateSpec(catalogue: seq<Tag>, formTags: seq<TagOption>)
    ensures PartitionTags(catalogue, Some(formTags)).tagsToCreate.Some?
    ensures
      var toCreate, vs := PartitionTags(catalogue, Some(formTags)).tagsToCreate.value, TagValues(formTags);
      && IsSubsequence(toCreate, vs)
      && (forall n :: n in toCreate <==> n in vs && !HasTagNamed(catalogue, n))
      && (forall n :: multiset(toCreate)[n] == if HasTagNamed(catalogue, n) then 0 else multiset(vs)[n])
  {
    var existingTags := SelectedTags(catalogue, Some(formTags));
    var vs := TagValues(formTags);
    var unmatched := (n: string) => !HasTagNamed(existingTags, n);
    var toCreate := Filter(vs, unmatched);
    forall n
      ensures n in toCreate <==> n in vs && !HasTagNamed(catalogue, n)
      ensures multiset(toCreate)[n] == if HasTagNamed(catalogue, n) then 0 else multiset(vs)[n]
    {
      SelectedNamesIff(catalogue, formTags, n);
      FilterMembership(vs, unmatched, n);
      if n !in vs {
        assert n !in toCreate;
      }
    }
  }

  /**
   * The tag split: `existingTags` is the part of the catalogue, in order and
   * with its repetitions, whose names were submitted; `tagsToCreate` holds, in
   * submitted order and with their repetitions, the submitted names that match
   * no catalogue tag. Every submitted name lands on exactly one side, and with
   * no submitted tags both sides are empty or absent.
   */
  lemma PartitionTagsSpec(catalogue: seq<Tag>, formTags: Option<seq<TagOption>>)
    ensures
      var p := PartitionTags(catalogue, formTags);
      && IsSubsequence(p.existingTags, catalogue)
      && (forall t :: t in p.existingTags <==>
            t in catalogue && formTags.Some? && t.name in TagValues(formTags.value))
      && (forall t :: multiset(p.existingTags)[t] ==
            if formTags.Some? && t.name in TagValues(formTags.value) then multiset(catalogue)[t] else 0)
      && (formTags.None? ==> p.existingTags == [] && p.tagsToCreate.None?)
      && (formTags.Some? ==>
            && p.tagsToCreate.Some?
            && IsSubsequence(p.tagsToCreate.value, TagValues(formTags.value))
            && (forall n :: n in p.tagsToCreate.value <==>
                  n in TagValues(formTags.value) && !HasTagNamed(catalogue, n))
            && (forall n :: multiset(p.tagsToCreate.value)[n] ==
                  if HasTagNamed(catalogue, n) then 0 else multiset(TagValues(formTags.value))[n]))
      && (formTags.Some? ==> forall n :: n in TagValues(formTags.value) ==>
            (HasTagNamed(p.existingTags, n) <==> n !in p.tagsToCreate.value))
  {
    var p := PartitionTags(catalogue, formTags);
    SelectedTagsSpec(catalogue, formTags);
    if formTags.Some? {
      TagsToCreateSpec(catalogue, formTags.value);
      forall n | n in TagValues(formTags.value)
        ensures HasTagNamed(p.existingTags, n) <==> n !in p.tagsToCreate.value
      {
        SelectedNamesIff(catalogue, formTags.value, n);
      }
    }
  }

  // ---------------------------------------------------------------------
  // Requests built on submission
  // ---------------------------------------------------------------------

  /**
   * The options sent with a request: the submitted flags and pattern, with the
   * options record's id when one is known.
   */
  datatype SubmittedOptions = SubmittedOptions(
    id: Option<string>,
    convertRarToZip: bool,
    createWebpThumbnails: bool,
    hardDeleteConversions: bool,
    libraryPattern: string)

  /** The arguments of the create-library request. */
  datatype CreateLibraryArgs = CreateLibraryArgs(
    description: Option<string>,
    libraryOptions: SubmittedOptions,
    name: string,
    path: string,
    scanMode: string,
    tags: seq<Tag>)

  /** The arguments of the edit-library request: the library plus two request fields. */
  datatype EditLibraryArgs = EditLibraryArgs(
    id: string,
    name: string,
    path: string,
    description: Option<string>,
    status: string,
    updatedAt: string,
    tags: seq<Tag>,
    libraryOptions: SubmittedOptions,
    removedTags: seq<Tag>,
    scanMode: string)

  /** The submitted values other than name, path, description, tags and scan mode. */
  function OptionsOf(v: FormValues, id: Option<string>): SubmittedOptions {
    SubmittedOptions(id, v.convertRarToZip, v.createWebpThumbnails, v.hardDeleteConversions, v.libraryPattern)
  }

  /**
   * The create path: the submitted fields, options without an id, and the
   * catalogue tags that were selected. Names still to create are computed but
   * not sent.
   */
  function HandleCreateLibrary(v: FormValues, catalogue: seq<Tag>): (args: CreateLibraryArgs)
    ensures args.name == v.name && args.path == v.path
    ensures args.description == v.description && args.scanMode == v.scanMode
    ensures args.libraryOptions.id.None?
    ensures args.libraryOptions.convertRarToZip == v.convertRarToZip
    ensures args.libraryOptions.createWebpThumbnails == v.createWebpThumbnails
    ensures args.libraryOptions.hardDeleteConversions == v.hardDeleteConversions
    ensures args.libraryOptions.libraryPattern == v.libraryPattern
    ensures IsSubsequence(args.tags, catalogue)
    ensures forall t :: t in args.tags <==> t in catalogue && v.tags.Some? && t.name in TagValues(v.tags.value)
    ensures forall t ::
      multiset(args.tags)[t] == (if v.tags.Some? && t.name in TagValues(v.tags.value) then multiset(catalogue)[t] else 0)
  {
    var partition := PartitionTags(catalogue, v.tags);
    PartitionTagsSpec(catalogue, v.tags);
    CreateLibraryArgs(v.description, OptionsOf(v, None), v.name, v.path, v.scanMode, partition.existingTags)
  }

  /**
   * The edit path: nothing without a library; otherwise the library with the
   * submitted fields, its options id kept, no removed tags.
   */
  function HandleUpdateLibrary(v: FormValues, library: Option<Library>, catalogue: seq<Tag>): (args: Option<EditLibraryArgs>)
    ensures args.Some? <==> library.Some?
    ensures library.Some? ==>
      var lib, a := library.value, args.value;
      && a.id == lib.id && a.status == lib.status && a.updatedAt == lib.updatedAt
      && a.name == v.name && a.path == v.path
      && a.description == v.description && a.scanMode == v.scanMode
      && a.libraryOptions.id == Some(lib.libraryOptions.id)
      && a.libraryOptions.convertRarToZip == v.convertRarToZip
      && a.libraryOptions.createWebpThumbnails == v.createWebpThumbnails
      && a.libraryOptions.hardDeleteConversions == v.hardDeleteConversions
      && a.libraryOptions.libraryPattern == v.libraryPattern
      && a.removedTags == []
      && IsSubsequence(a.tags, catalogue)
      && (forall t :: t in a.tags <==> t in catalogue && v.tags.Some? && t.name in TagValues(v.tags.value))
      && (forall t :: multiset(a.tags)[t] ==
            if v.tags.Some? && t.name in TagValues(v.tags.value) then multiset(catalogue)[t] else 0)
  {
    match library
    case None => None
    case Some(lib) =>
      var existingTags := SelectedTags(catalogue, v.tags);
      PartitionTagsSpec(catalogue, v.tags);
      Some(EditLibraryArgs(
        id := lib.id,
        name := v.name,
        path := v.path,
        description := v.description,
        status := lib.status,
        updatedAt := lib.updatedAt,
        tags := existingTags,
        libraryOptions := OptionsOf(v, Some(lib.libraryOptions.id)),
        removedTags := [],
        scanMode := v.scanMode))
  }

  /** The request a submission sends. */
  datatype Submission = CreateRequest(create: CreateLibraryArgs) | EditRequest(edit: EditLibraryArgs)

  /** Submission takes the create path iff no library is being edited. */
  function HandleSubmit(v: FormValues, library: Option<Library>, catalogue: seq<Tag>): (s: Submission)
    ensures s.CreateRequest? <==> library.None?
    ensures s.CreateRequest? ==> s.create == HandleCreateLibrary(v, catalogue)
    ensures s.EditRequest? ==> Some(s.edit) == HandleUpdateLibrary(v, library, catalogue)
    ensures s.EditRequest? ==> s.edit.id == library.value.id
  {
    if library.None? then CreateRequest(HandleCreateLibrary(v, catalogue))
    else EditRequest(HandleUpdateLibrary(v, library, catalogue).value)
  }

  /** What pressing the submit button leads to. */
  datatype FormOutcome = Rejected(issues: seq<Issue>) | Submitted(request: Submission)

  /** The form resolves its values through the schema and submits only valid ones. */
  function FormSubmit(raw: RawValues, existing: seq<Library>, library: Option<Library>, catalogue: seq<Tag>): (o: FormOutcome)
    ensures o.Rejected? <==> !PassesRules(ApplySchemaDefaults(raw), existing, library)
    ensures o.Rejected? ==> o.issues != []
    ensures o.Submitted? ==> o.request == HandleSubmit(ApplySchemaDefaults(raw), library, catalogue)
  {
    match Parse(raw, existing, library)
    case Failure(issues) => Rejected(issues)
    case Success(v) => Submitted(HandleSubmit(v, library, catalogue))
  }

  /** The name and path a request carries. */
  function RequestName(s: Submission): string {
    match s
    case CreateRequest(a) => a.name
    case EditRequest(a) => a.name
  }

  function RequestPath(s: Submission): string {
    match s
    case CreateRequest(a) => a.path
    case EditRequest(a) => a.path
  }

  /**
   * Every request the form sends carries a non-empty name that no other
   * library holds and a non-empty path that is no prefix of another library's
   * path, the edited library excepted; its tags all come from the catalogue.
   */
  lemma SubmittedRequestPassesRules(raw: RawValues, existing: seq<Library>, library: Option<Library>, catalogue: seq<Tag>)
    requires FormSubmit(raw, existing, library, catalogue).Submitted?
    ensures
      var s := FormSubmit(raw, existing, library, catalogue).request;
      && RequestName(s) == raw.name && RequestName(s) != ""
      && !NameTaken(RequestName(s), existing, library)
      && RequestPath(s) == raw.path && RequestPath(s) != ""
      && !PathClashes(RequestPath(s), existing, library)
      && (s.CreateRequest? ==> forall t :: t in s.create.tags ==> t in catalogue)
      && (s.EditRequest? ==> forall t :: t in s.edit.tags ==> t in catalogue)
  {
    var v := ApplySchemaDefaults(raw);
    var s := FormSubmit(raw, existing, library, catalogue).request;
    assert PassesRules(v, existing, library);
    if library.Some? {
      assert s.edit == HandleUpdateLibrary(v, library, catalogue).value;
    }
  }

  /**
   * Re-submitting an edited library with its own name and path and no other
   * change sends the edit request, whatever the other libraries are.
   */
  lemma ResubmitUnchangedAccepted(library: Library, existing: seq<Library>, catalogue: seq<Tag>)
    requires library.name != "" && library.path != ""
    ensures
      var d := DefaultValues(Some(library));
      var raw := RawValues(
        Some(d.convertRarToZip), Some(d.createWebpThumbnails), d.description,
        Some(d.hardDeleteConversions), Some(d.libraryPattern),
        library.name, library.path, Some(d.scanMode), d.tags);
      FormSubmit(raw, existing, Some(library), catalogue).Submitted?
  {
    EditDefaultsPassRules(library, existing);
  }

  /**
   * The worked example: with "Action" in the catalogue and "Action" and "New"
   * submitted, "Action" is sent and "New" is left to create.
   */
  lemma ActionNewExample(action: Tag)
    requires action.name == "Action"
    ensures
      var p := PartitionTags([action], Some([TagOption("Action", "Action"), TagOption("New", "New")]));
      p.existingTags == [action] && p.tagsToCreate == Some(["New"])
  {
    var formTags := [TagOption("Action", "Action"), TagOption("New", "New")];
    var p := PartitionTags([action], Some(formTags));
    assert Selected(Some(formTags), action) by {
      assert formTags[0].value == action.name;
    }
    assert p.existingTags == [action];
    var vs := TagValues(formTags);
    assert vs == ["Action", "New"];
    assert HasTagNamed([action], "Action") by {
      assert [action][0].name == "Action";
    }
    assert !HasTagNamed([action], "New") by {
      assert "New" != "Action" by { assert |"New"| != |"Action"|; }
    }
    var unmatched := (n: string) => !HasTagNamed(p.existingTags, n);
    assert vs[1..] == ["New"];
    assert Filter(["New"], unmatched) == ["New"] by {
      assert ["New"][1..] == [];
    }
    assert Filter(vs, unmatched) == Filter(vs[1..], unmatched);
  }
}
