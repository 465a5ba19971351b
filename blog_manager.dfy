/** app/components/pages/BlogManager.tsx: the story editor of the admin panel. The
    section helpers and the slug are pure rebuilds; the save runs guard, cover upload,
    section uploads and one write, with the `loading` flag around them. */
module BlogManager {
  import opened Common
  import opened Cloudinary

  // ---------------------------------------------------------------------------
  // Sections
  // ---------------------------------------------------------------------------

  datatype SectionKind = Paragraph | ImageDetail

  /** A content block of a story. Optional fields are the keys a block may lack;
      `imageFile` is a picked file that has not been uploaded yet. */
  datatype Section = Section(
    id: string,
    kind: SectionKind,
    title: Option<string>,
    description: Option<string>,
    imageUrl: Option<string>,
    imageFile: Option<File>)

  /** A `Partial<Section>` over the editable fields: None is a key the patch lacks,
      so `imageFile: Some(None)` clears the picked file. */
  datatype SectionPatch = SectionPatch(
    title: Option<string>,
    description: Option<string>,
    imageUrl: Option<string>,
    imageFile: Option<Option<File>>)

  /** addParagraph: one paragraph block with an empty text, appended at the end. */
  function AddParagraph(sections: seq<Section>, id: string): (r: seq<Section>)
    ensures |r| == |sections| + 1 && r[..|sections|] == sections
    ensures var s := r[|sections|];
            s.id == id && s.kind == Paragraph && s.description == Some("")
            && s.title.None? && s.imageUrl.None? && s.imageFile.None?
  {
    sections + [Section(id, Paragraph, None, Some(""), None, None)]
  }

  /** addImageDetail: one image block with empty title, text and URL, appended. */
  function AddImageDetail(sections: seq<Section>, id: string): (r: seq<Section>)
    ensures |r| == |sections| + 1 && r[..|sections|] == sections
    ensures var s := r[|sections|];
            s.id == id && s.kind == ImageDetail && s.title == Some("") && s.description == Some("")
            && s.imageUrl == Some("") && s.imageFile.None?
  {
    sections + [Section(id, ImageDetail, Some(""), Some(""), Some(""), None)]
  }

  predicate HasSection(sections: seq<Section>, id: string) {
    exists i :: 0 <= i < |sections| && sections[i].id == id
  }

  /** removeSection: every block with that id goes, the rest keep their order. */
  function RemoveSection(sections: seq<Section>, id: string): (r: seq<Section>)
    ensures IsSubseq(r, sections)
    ensures forall s :: s in r <==> s in sections && s.id != id
    ensures forall s :: multiset(r)[s] == if s.id != id then multiset(sections)[s] else 0
    ensures !HasSection(r, id)
  {
    var keep := (s: Section) => s.id != id;
    FilterCount(sections, keep);
    var r := Filter(sections, keep);
    assert forall i :: 0 <= i < |r| ==> r[i] in r;
    r
  }

  /** `{ ...s, ...data }`: the keys the patch has override those of the block. */
  function Merge(s: Section, patch: SectionPatch): (r: Section)
    ensures r.id == s.id && r.kind == s.kind
    ensures r.title == (if patch.title.Some? then patch.title else s.title)
    ensures r.description == (if patch.description.Some? then patch.description else s.description)
    ensures r.imageUrl == (if patch.imageUrl.Some? then patch.imageUrl else s.imageUrl)
    ensures r.imageFile == (if patch.imageFile.Some? then patch.imageFile.value else s.imageFile)
  {
    Section(
      s.id, s.kind,
      if patch.title.Some? then patch.title else s.title,
      if patch.description.Some? then patch.description else s.description,
      if patch.imageUrl.Some? then patch.imageUrl else s.imageUrl,
      if patch.imageFile.Some? then patch.imageFile.value else s.imageFile)
  }

  /** updateSection: the patch is merged into the blocks with that id only. */
  function UpdateSection(sections: seq<Section>, id: string, patch: SectionPatch): (r: seq<Section>)
    ensures |r| == |sections|
    ensures forall i :: 0 <= i < |r| ==> r[i].id == sections[i].id && r[i].kind == sections[i].kind
    ensures forall i :: 0 <= i < |r| && sections[i].id != id ==> r[i] == sections[i]
    ensures forall i :: 0 <= i < |r| && sections[i].id == id ==> r[i] == Merge(sections[i], patch)
  {
    seq(|sections|, i requires 0 <= i < |sections| =>
      if sections[i].id == id then Merge(sections[i], patch) else sections[i])
  }

  /** Removing a freshly added block restores the list, when its id was new. */
  lemma RemoveAfterAddParagraph(sections: seq<Section>, id: string)
    requires !HasSection(sections, id)
    ensures RemoveSection(AddParagraph(sections, id), id) == sections
  {
    var r := AddParagraph(sections, id);
    assert r[..|r| - 1] == sections;
    RemoveNoMatch(sections, id);
  }

  lemma {:induction false} RemoveNoMatch(sections: seq<Section>, id: string)
    requires !HasSection(sections, id)
    ensures RemoveSection(sections, id) == sections
  {
    forall s | s in sections ensures s.id != id {
      var i :| 0 <= i < |sections| && sections[i] == s;
    }
    FilterAll(sections, (s: Section) => s.id != id);
  }

  /** Ids come from the clock and may collide: removing one id removes every block
      that carries it, including a block added earlier in the same millisecond. */
  lemma RemoveDropsCollidingBlocks(sections: seq<Section>, id: string)
    ensures RemoveSection(AddImageDetail(AddParagraph(sections, id), id), id) == RemoveSection(sections, id)
  {
    var a := AddParagraph(sections, id);
    var b := AddImageDetail(a, id);
    assert b[..|b| - 1] == a;
    assert a[..|a| - 1] == sections;
    assert RemoveSection(b, id) == RemoveSection(a, id);
    assert RemoveSection(a, id) == RemoveSection(sections, id);
  }

  /** Updating blocks and then removing their id is the same as removing it. */
  lemma {:induction false} RemoveAfterUpdate(sections: seq<Section>, id: string, patch: SectionPatch)
    ensures RemoveSection(UpdateSection(sections, id, patch), id) == RemoveSection(sections, id)
  {
    if sections != [] {
      var n := |sections|;
      var u := UpdateSection(sections, id, patch);
      assert u[..n - 1] == UpdateSection(sections[..n - 1], id, patch);
      RemoveAfterUpdate(sections[..n - 1], id, patch);
    }
  }

  /** Applying the same patch twice is the same as applying it once. */
  lemma UpdateIdempotent(sections: seq<Section>, id: string, patch: SectionPatch)
    ensures UpdateSection(UpdateSection(sections, id, patch), id, patch) == UpdateSection(sections, id, patch)
  {
  }

  // ---------------------------------------------------------------------------
  // Slug: title.toLowerCase().replace(/[^\w ]+/g, '').replace(/ +/g, '-')
  // ---------------------------------------------------------------------------

  /** The class `\w` of a JavaScript regular expression without the u flag. */
  predicate IsWordChar(c: char) {
    'a' <= c <= 'z' || 'A' <= c <= 'Z' || '0' <= c <= '9' || c == '_'
  }

  /** `.replace(/[^\w ]+/g, '')`: every character that is neither a word character
      nor a space is removed. */
  function StripNonWord(s: string): (r: string)
    ensures IsSubseq(r, s)
    ensures forall c :: c in r <==> c in s && (IsWordChar(c) || c == ' ')
    ensures forall c :: multiset(r)[c] == if IsWordChar(c) || c == ' ' then multiset(s)[c] else 0
  {
    var keep := (c: char) => IsWordChar(c) || c == ' ';
    FilterCount(s, keep);
    Filter(s, keep)
  }

  function DropSpaces(s: string): (r: string)
    ensures |r| <= |s|
    ensures r == [] || r[0] != ' '
    ensures forall c :: c in r ==> c in s
  {
    if s != [] && s[0] == ' ' then
      var r := DropSpaces(s[1..]);
      assert forall c :: c in s[1..] ==> c in s;
      r
    else s
  }

  /** `.replace(/ +/g, '-')`: each maximal run of spaces becomes one hyphen. */
  function HyphenateSpaces(s: string): string
    decreases |s|
  {
    if s == [] then []
    else if s[0] == ' ' then "-" + HyphenateSpaces(DropSpaces(s[1..]))
    else [s[0]] + HyphenateSpaces(s[1..])
  }

  function Slug(title: string): string {
    HyphenateSpaces(StripNonWord(Lower(title)))
  }

  predicate IsSlugChar(c: char) {
    'a' <= c <= 'z' || '0' <= c <= '9' || c == '_' || c == '-'
  }

  predicate NoDoubleHyphen(s: string) {
    forall i :: 0 <= i < |s| - 1 ==> !(s[i] == '-' && s[i + 1] == '-')
  }

  /** On a hyphen-free input: no space survives, every other character comes from the
      input, no two hyphens are adjacent, and a leading hyphen stands for a leading
      space. */
  lemma {:induction false} HyphenateShape(s: string)
    requires '-' !in s
    decreases |s|
    ensures ' ' !in HyphenateSpaces(s)
    ensures forall c :: c in HyphenateSpaces(s) ==> c == '-' || c in s
    ensures NoDoubleHyphen(HyphenateSpaces(s))
    ensures HyphenateSpaces(s) != [] && HyphenateSpaces(s)[0] == '-' ==> s[0] == ' '
  {
    if s == [] {
    } else if s[0] == ' ' {
      var t := DropSpaces(s[1..]);
      assert forall c :: c in s[1..] ==> c in s;
      HyphenateShape(t);
      var h := HyphenateSpaces(t);
      assert HyphenateSpaces(s) == "-" + h;
      assert h != [] ==> h[0] != '-';
    } else {
      assert forall c :: c in s[1..] ==> c in s;
      HyphenateShape(s[1..]);
      var h := HyphenateSpaces(s[1..]);
      assert HyphenateSpaces(s) == [s[0]] + h;
    }
  }

  predicate NotSpace(c: char) { c != ' ' }

  predicate NotHyphen(c: char) { c != '-' }

  /** Dropping leading spaces changes nothing once spaces are erased. */
  lemma {:induction false} DropSpacesKeepsNonSpaces(s: string)
    decreases |s|
    ensures Filter(DropSpaces(s), NotSpace) == Filter(s, NotSpace)
  {
    if s != [] && s[0] == ' ' {
      DropSpacesKeepsNonSpaces(s[1..]);
      FilterConcat([' '], s[1..], NotSpace);
      assert [' '] + s[1..] == s;
      assert Filter([' '], NotSpace) == [] by {
        assert [' '][..0] == [];
      }
    }
  }

  /** On a hyphen-free input the `/ +/g` step keeps every other character in order:
      erasing the hyphens from the result gives the input with its spaces erased. */
  lemma {:induction false} HyphenateKeepsContent(s: string)
    requires '-' !in s
    decreases |s|
    ensures Filter(HyphenateSpaces(s), NotHyphen) == Filter(s, NotSpace)
  {
    if s != [] {
      var head := [s[0]];
      assert head + s[1..] == s;
      assert head[..0] == [];
      FilterConcat(head, s[1..], NotSpace);
      assert forall c :: c in s[1..] ==> c in s;
      if s[0] == ' ' {
        var t := DropSpaces(s[1..]);
        HyphenateKeepsContent(t);
        DropSpacesKeepsNonSpaces(s[1..]);
        FilterConcat("-", HyphenateSpaces(t), NotHyphen);
        assert "-"[..0] == [];
      } else {
        HyphenateKeepsContent(s[1..]);
        FilterConcat(head, HyphenateSpaces(s[1..]), NotHyphen);
      }
    }
  }

  /** A string with no space is its own hyphenation. */
  lemma {:induction false} HyphenateWithoutSpaces(s: string)
    requires ' ' !in s
    ensures HyphenateSpaces(s) == s
  {
    if s != [] {
      assert forall c :: c in s[1..] ==> c in s;
      HyphenateWithoutSpaces(s[1..]);
    }
  }

  /** Lowercasing leaves no ASCII capital. */
  lemma LowerHasNoCapital(s: string)
    ensures forall c :: c in Lower(s) ==> !('A' <= c <= 'Z')
  {
    var l := Lower(s);
    forall c | c in l ensures !('A' <= c <= 'Z') {
      var i :| 0 <= i < |l| && l[i] == c;
      assert l[i] == LowerChar(s[i]);
    }
  }

  /** Every slug is made of `[a-z0-9_-]`, holds no space and never two adjacent
      hyphens. */
  lemma SlugShape(title: string)
    ensures forall c :: c in Slug(title) ==> IsSlugChar(c)
    ensures ' ' !in Slug(title)
    ensures NoDoubleHyphen(Slug(title))
  {
    var l := Lower(title);
    LowerHasNoCapital(title);
    var w := StripNonWord(l);
    HyphenateShape(w);
  }

  /** A title already made of `[a-z0-9_]` is its own slug. */
  lemma SlugOfPlainWord(title: string)
    requires forall c :: c in title ==> 'a' <= c <= 'z' || '0' <= c <= '9' || c == '_'
    ensures Slug(title) == title
  {
    var l := Lower(title);
    assert l == title by {
      forall i | 0 <= i < |title| ensures l[i] == title[i] {
        assert title[i] in title;
      }
    }
    FilterAll(title, (c: char) => IsWordChar(c) || c == ' ');
    HyphenateWithoutSpaces(title);
  }

  // ---------------------------------------------------------------------------
  // Section uploads: Promise.all over the blocks
  // ---------------------------------------------------------------------------

  /** An image block holding a picked file: the save uploads it. */
  predicate PendingUpload(s: Section) {
    s.kind == ImageDetail && s.imageFile.Some?
  }

  /** The files uploaded by the save, in block order. */
  function PendingFiles(sections: seq<Section>): (r: seq<File>)
    ensures |r| <= |sections|
  {
    if sections == [] then []
    else
      var init := PendingFiles(sections[..|sections| - 1]);
      var last := sections[|sections| - 1];
      init + (if PendingUpload(last) then [last.imageFile.value] else [])
  }

  /** The files uploaded are exactly the picked files of the pending blocks, one per
      block and in block order. */
  lemma {:induction false} PendingFilesArePicked(sections: seq<Section>)
    ensures |PendingFiles(sections)| == |Filter(sections, PendingUpload)|
    ensures forall k :: 0 <= k < |PendingFiles(sections)| ==>
              Filter(sections, PendingUpload)[k].imageFile == Some(PendingFiles(sections)[k])
  {
    if sections != [] {
      var init := sections[..|sections| - 1];
      PendingFilesArePicked(init);
      assert sections == init + [sections[|sections| - 1]];
    }
  }

  /** PendingFiles of a prefix one block longer. */
  lemma PendingFilesExtend(sections: seq<Section>, i: nat)
    requires i < |sections|
    ensures PendingFiles(sections[..i + 1]) ==
              PendingFiles(sections[..i]) + (if PendingUpload(sections[i]) then [sections[i].imageFile.value] else [])
  {
    assert sections[..i + 1][..i] == sections[..i];
  }

  /** Every pending block's upload succeeded; `replies[i]` answers block i. */
  predicate SectionUploadsSucceed(sections: seq<Section>, replies: seq<HostReply>)
    requires |replies| == |sections|
  {
    UploadsSucceedBefore(sections, replies, |sections|)
  }

  /** The uploads of the first `n` blocks succeeded. */
  predicate UploadsSucceedBefore(sections: seq<Section>, replies: seq<HostReply>, n: nat)
    requires |replies| == |sections| && n <= |sections|
  {
    forall i :: 0 <= i < n && PendingUpload(sections[i]) ==> replies[i].Uploaded?
  }

  /** One block after its upload: a pending block whose upload succeeded takes the
      returned URL and drops its file; any other block is kept. */
  function AfterUpload(s: Section, reply: HostReply): Section {
    if PendingUpload(s) && reply.Uploaded? then
      s.(imageUrl := Some(OptimizeUrl(reply.secureUrl)), imageFile := None)
    else s
  }

  /** The blocks as saved: each pending image block gets the optimized uploaded URL and
      loses its file; every other block is kept as it is, in order. */
  function UploadedSections(sections: seq<Section>, replies: seq<HostReply>): (r: seq<Section>)
    requires |replies| == |sections| && SectionUploadsSucceed(sections, replies)
    ensures |r| == |sections|
    ensures forall i :: 0 <= i < |r| && !PendingUpload(sections[i]) ==> r[i] == sections[i]
    ensures forall i :: 0 <= i < |r| && PendingUpload(sections[i]) ==>
              r[i] == sections[i].(imageUrl := Some(OptimizeUrl(replies[i].secureUrl)), imageFile := None)
    ensures forall i :: 0 <= i < |r| ==> !PendingUpload(r[i])
  {
    seq(|sections|, i requires 0 <= i < |sections| => AfterUpload(sections[i], replies[i]))
  }

  /** With no pending file the blocks are saved exactly as they are. */
  lemma NothingPendingKeepsSections(sections: seq<Section>, replies: seq<HostReply>)
    requires |replies| == |sections|
    requires forall i :: 0 <= i < |sections| ==> !PendingUpload(sections[i])
    ensures PendingFiles(sections) == []
    ensures SectionUploadsSucceed(sections, replies)
    ensures UploadedSections(sections, replies) == sections
  {
    if sections != [] {
      NothingPendingKeepsSections(sections[..|sections| - 1], replies[..|sections| - 1]);
    }
  }

  /** The mapping inside Promise.all: every pending block's upload is started, in
      order, whatever another one answers; the result exists only if all succeeded. */
  method UploadSections(sections: seq<Section>, replies: seq<HostReply>)
      returns (updated: Option<seq<Section>>, files: seq<File>)
    requires |replies| == |sections|
    ensures files == PendingFiles(sections)
    ensures updated.Some? <==> SectionUploadsSucceed(sections, replies)
    ensures updated.Some? ==> updated.value == UploadedSections(sections, replies)
  {
    var acc: seq<Section> := [];
    var failed := false;
    files := [];
    for i := 0 to |sections|
      invariant |acc| == i
      invariant files == PendingFiles(sections[..i])
      invariant failed <==> !UploadsSucceedBefore(sections, replies, i)
      invariant forall j :: 0 <= j < i ==> acc[j] == AfterUpload(sections[j], replies[j])
    {
      var sec := sections[i];
      PendingFilesExtend(sections, i);
      if PendingUpload(sec) {
        files := files + [sec.imageFile.value];
        var r := UploadToCloudinary(replies[i]);
        if r.Success? {
          acc := acc + [sec.(imageUrl := Some(r.value), imageFile := None)];
        } else {
          failed := true;
          acc := acc + [sec];
        }
      } else {
        acc := acc + [sec];
      }
    }
    assert sections[..|sections|] == sections;
    if failed {
      updated := None;
    } else {
      updated := Some(acc);
    }
  }

  // ---------------------------------------------------------------------------
  // The form and the save
  // ---------------------------------------------------------------------------

  /** The editor's form state. */
  datatype BlogForm = BlogForm(
    editingId: Option<string>,
    mainTitle: string,
    category: string,
    status: string,
    mainImage: Option<File>,
    mainImagePrev: Option<string>,
    sections: seq<Section>)

  const InitialBlogForm := BlogForm(None, "", "Industry News", "Published", None, None, [])

  /** A stored story as the edit button reads it. */
  datatype BlogDoc = BlogDoc(
    id: string,
    title: string,
    category: string,
    status: Option<string>,
    coverImage: Option<string>,
    sections: Option<seq<Section>>)

  /** The document written, without its server timestamps; `hasCreatedAt` says whether
      a `createdAt` is written besides `updatedAt`. */
  datatype BlogRecord = BlogRecord(
    title: string,
    category: string,
    status: string,
    coverImage: Option<string>,
    sections: seq<Section>,
    slug: string,
    hasCreatedAt: bool)

  const RequiredMessage := "Headline and Header Image are required."
  const SaveErrorMessage := "Error saving story."

  /** resetForm: everything back to a new story except the category. */
  function ResetBlogForm(f: BlogForm): (r: BlogForm)
    ensures r.editingId.None? && r.mainTitle == "" && r.mainImage.None? && r.mainImagePrev.None?
    ensures r.sections == [] && r.status == "Published"
    ensures r.category == f.category
  {
    f.(editingId := None, mainTitle := "", mainImagePrev := None, mainImage := None,
       sections := [], status := "Published")
  }

  /** Two forms differing only outside the category reset to the same form, and a
      reset form is the initial form up to its category. */
  lemma ResetKeepsOnlyCategory(f: BlogForm, g: BlogForm)
    ensures f.category == g.category ==> ResetBlogForm(f) == ResetBlogForm(g)
    ensures ResetBlogForm(f) == InitialBlogForm.(category := f.category)
  {
  }

  /** The pencil button: the stored story is loaded; a missing or empty status reads as
      "Published" and missing blocks as none. The picked cover file is not cleared. */
  function EditForm(f: BlogForm, blog: BlogDoc): (r: BlogForm)
    ensures r.editingId == Some(blog.id) && r.mainTitle == blog.title && r.category == blog.category
    ensures Truthy(blog.status) ==> r.status == blog.status.value
    ensures !Truthy(blog.status) ==> r.status == "Published"
    ensures r.mainImagePrev == blog.coverImage && r.mainImage == f.mainImage
    ensures r.sections == (if blog.sections.Some? then blog.sections.value else [])
  {
    f.(editingId := Some(blog.id), mainTitle := blog.title, category := blog.category,
       status := if Truthy(blog.status) then blog.status.value else "Published",
       mainImagePrev := blog.coverImage,
       sections := if blog.sections.Some? then blog.sections.value else [])
  }

  /** The guard: a headline, and a cover either already stored or newly picked. */
  predicate CanSubmit(f: BlogForm) {
    f.mainTitle != "" && (Truthy(f.mainImagePrev) || f.mainImage.Some?)
  }

  /** The cover the story is saved with: the upload of a newly picked file, or else the
      stored cover; the upload's error when it fails. */
  function CoverUpload(f: BlogForm, reply: HostReply): (r: Result<Option<string>, string>)
    ensures f.mainImage.None? ==> r == Success(f.mainImagePrev)
    ensures f.mainImage.Some? ==> (r.Success? <==> reply.Uploaded?)
    ensures f.mainImage.Some? && r.Success? ==> r.value == Some(OptimizeUrl(reply.secureUrl))
  {
    if f.mainImage.None? then Success(f.mainImagePrev)
    else match UploadToCloudinary(reply)
      case Success(url) => Success(Some(url))
      case Failure(e) => Failure(e)
  }

  function CoverEvents(f: BlogForm): (r: seq<Event<BlogRecord>>)
    ensures NoWrites(r)
  {
    if f.mainImage.Some? then [Upload(f.mainImage.value)] else []
  }

  function BlogData(f: BlogForm, cover: Option<string>, sections: seq<Section>): BlogRecord {
    BlogRecord(f.mainTitle, f.category, f.status, cover, sections, Slug(f.mainTitle), false)
  }

  /** The write: an update of the story being edited, without createdAt, or else an
      addition carrying createdAt. */
  function SaveEvent(f: BlogForm, data: BlogRecord): (r: Event<BlogRecord>)
    ensures IsWrite(r) && r.collection == "blogs"
    ensures r.Update? <==> Truthy(f.editingId)
    ensures r.Update? ==> r.id == f.editingId.value && r.record == data
    ensures r.Add? <==> !Truthy(f.editingId)
    ensures r.Add? ==> r.record == data.(hasCreatedAt := true)
  {
    if Truthy(f.editingId) then Update("blogs", f.editingId.value, data)
    else Add("blogs", data.(hasCreatedAt := true))
  }

  /** What the save does once the cover is settled: the block uploads, then the write
      when they all succeeded, then an alert for any failure. */
  function SectionsAndWriteEvents(f: BlogForm, cover: Option<string>, sectionReplies: seq<HostReply>, writeReply: WriteReply)
    : seq<Event<BlogRecord>>
    requires |sectionReplies| == |f.sections|
  {
    var uploads := UploadEvents(PendingFiles(f.sections));
    if !SectionUploadsSucceed(f.sections, sectionReplies) then uploads + [Alert(SaveErrorMessage)]
    else
      var data := BlogData(f, cover, UploadedSections(f.sections, sectionReplies));
      uploads + [SaveEvent(f, data)] + (if writeReply.Written? then [] else [Alert(SaveErrorMessage)])
  }

  /** Everything the save does outside the page, in order. */
  function SubmitEvents(f: BlogForm, coverReply: HostReply, sectionReplies: seq<HostReply>, writeReply: WriteReply)
    : seq<Event<BlogRecord>>
    requires |sectionReplies| == |f.sections|
  {
    if !CanSubmit(f) then [Alert(RequiredMessage)]
    else if CoverUpload(f, coverReply).Failure? then CoverEvents(f) + [Alert(SaveErrorMessage)]
    else CoverEvents(f) + SectionsAndWriteEvents(f, CoverUpload(f, coverReply).value, sectionReplies, writeReply)
  }

  /** Past the guard the save is the cover step followed by either an alert or the
      blocks and the write; it is saved exactly when the latter succeed. */
  lemma SubmitEventsPastGuard(f: BlogForm, coverReply: HostReply, sectionReplies: seq<HostReply>, writeReply: WriteReply)
    requires |sectionReplies| == |f.sections| && CanSubmit(f)
    ensures CoverUpload(f, coverReply).Failure? ==>
              SubmitEvents(f, coverReply, sectionReplies, writeReply) == CoverEvents(f) + [Alert(SaveErrorMessage)]
              && !Saved(f, coverReply, sectionReplies, writeReply)
    ensures CoverUpload(f, coverReply).Success? ==>
              SubmitEvents(f, coverReply, sectionReplies, writeReply)
                == CoverEvents(f) + SectionsAndWriteEvents(f, CoverUpload(f, coverReply).value, sectionReplies, writeReply)
              && (Saved(f, coverReply, sectionReplies, writeReply) <==>
                    SectionUploadsSucceed(f.sections, sectionReplies) && writeReply.Written?)
  {
  }

  /** With a headline, picking a cover is enough to pass the guard, and the picked file
      is the first thing the save uploads. */
  lemma PickedCoverIsUploadedFirst(f: BlogForm, file: File, previewUrl: string, coverReply: HostReply,
                                   sectionReplies: seq<HostReply>, writeReply: WriteReply)
    requires f.mainTitle != "" && |sectionReplies| == |f.sections|
    ensures var g := f.(mainImage := Some(file), mainImagePrev := Some(previewUrl));
            && CanSubmit(g)
            && SubmitEvents(g, coverReply, sectionReplies, writeReply)[0] == Upload(file)
  {
    var g := f.(mainImage := Some(file), mainImagePrev := Some(previewUrl));
    assert CoverEvents(g) == [Upload(file)];
  }

  /** The save went through: guard, every upload and the write succeeded. */
  predicate Saved(f: BlogForm, coverReply: HostReply, sectionReplies: seq<HostReply>, writeReply: WriteReply)
    requires |sectionReplies| == |f.sections|
  {
    CanSubmit(f) && CoverUpload(f, coverReply).Success?
    && SectionUploadsSucceed(f.sections, sectionReplies) && writeReply.Written?
  }

  /** A failing guard only alerts: no upload and no write. */
  lemma GuardFailureMakesNoCalls(f: BlogForm, coverReply: HostReply, sectionReplies: seq<HostReply>, writeReply: WriteReply)
    requires |sectionReplies| == |f.sections|
    requires !CanSubmit(f)
    ensures SubmitEvents(f, coverReply, sectionReplies, writeReply) == [Alert(RequiredMessage)]
    ensures NoWrites(SubmitEvents(f, coverReply, sectionReplies, writeReply))
    ensures NoUploads(SubmitEvents(f, coverReply, sectionReplies, writeReply))
  {
  }

  /** A failed cover or block upload means no write; a failed cover upload also means
      that no block upload is started. */
  lemma NoWriteAfterFailedUpload(f: BlogForm, coverReply: HostReply, sectionReplies: seq<HostReply>, writeReply: WriteReply)
    requires |sectionReplies| == |f.sections|
    requires CanSubmit(f)
    requires CoverUpload(f, coverReply).Failure? || !SectionUploadsSucceed(f.sections, sectionReplies)
    ensures NoWrites(SubmitEvents(f, coverReply, sectionReplies, writeReply))
    ensures CoverUpload(f, coverReply).Failure? ==>
              SubmitEvents(f, coverReply, sectionReplies, writeReply) == [Upload(f.mainImage.value), Alert(SaveErrorMessage)]
  {
    if CoverUpload(f, coverReply).Success? {
      var ups := UploadEvents<BlogRecord>(PendingFiles(f.sections));
      var fail: seq<Event<BlogRecord>> := [Alert(SaveErrorMessage)];
      NoWritesAppend(ups, fail);
      NoWritesAppend(CoverEvents(f), ups + fail);
    } else {
      NoWritesAppend(CoverEvents(f), [Alert(SaveErrorMessage)]);
    }
  }

  /** A save writes at most once, and every upload comes before the write. */
  lemma OneWriteAfterUploads(f: BlogForm, coverReply: HostReply, sectionReplies: seq<HostReply>, writeReply: WriteReply)
    requires |sectionReplies| == |f.sections|
    ensures var ev := SubmitEvents(f, coverReply, sectionReplies, writeReply);
            forall i, j :: 0 <= i < |ev| && 0 <= j < |ev| && IsWrite(ev[i]) && (IsWrite(ev[j]) || ev[j].Upload?) ==> j <= i
  {
    if CanSubmit(f) && CoverUpload(f, coverReply).Success? && SectionUploadsSucceed(f.sections, sectionReplies) {
      var cover := CoverEvents(f);
      var blocks := UploadEvents<BlogRecord>(PendingFiles(f.sections));
      var data := BlogData(f, CoverUpload(f, coverReply).value, UploadedSections(f.sections, sectionReplies));
      var tail: seq<Event<BlogRecord>> := if writeReply.Written? then [] else [Alert(SaveErrorMessage)];
      SavedEventsShape(f, coverReply, sectionReplies, writeReply);
      UploadsThenWrite(cover, blocks, SaveEvent(f, data), tail);
    } else {
      NoWritesWhenNotSaving(f, coverReply, sectionReplies, writeReply);
    }
  }

  /** Cover and block uploads, then the write, then at most an alert: the write comes
      after every upload and is the only one. */
  lemma UploadsThenWrite<R>(cover: seq<Event<R>>, blocks: seq<Event<R>>, w: Event<R>, tail: seq<Event<R>>)
    requires NoWrites(cover) && NoWrites(blocks) && IsWrite(w)
    requires forall e :: e in tail ==> !IsWrite(e) && !e.Upload?
    ensures var ev := cover + blocks + [w] + tail;
            forall i, j :: 0 <= i < |ev| && 0 <= j < |ev| && IsWrite(ev[i]) && (IsWrite(ev[j]) || ev[j].Upload?) ==> j <= i
  {
    var pre := cover + blocks;
    forall i | 0 <= i < |pre| ensures !IsWrite(pre[i]) {
      if i < |cover| { assert pre[i] == cover[i]; } else { assert pre[i] == blocks[i - |cover|]; }
    }
    WriteLast(pre, w, tail);
  }

  /** When the guard and every upload succeed, the log is the uploads, the write and an
      alert exactly when the write failed. */
  lemma SavedEventsShape(f: BlogForm, coverReply: HostReply, sectionReplies: seq<HostReply>, writeReply: WriteReply)
    requires |sectionReplies| == |f.sections|
    requires CanSubmit(f) && CoverUpload(f, coverReply).Success? && SectionUploadsSucceed(f.sections, sectionReplies)
    ensures SubmitEvents(f, coverReply, sectionReplies, writeReply)
         == CoverEvents(f) + UploadEvents<BlogRecord>(PendingFiles(f.sections))
            + [SaveEvent(f, BlogData(f, CoverUpload(f, coverReply).value, UploadedSections(f.sections, sectionReplies)))]
            + (if writeReply.Written? then [] else [Alert(SaveErrorMessage)])
  {
  }

  /** A log whose only write comes after every other write and upload. */
  lemma WriteLast<R>(pre: seq<Event<R>>, w: Event<R>, tail: seq<Event<R>>)
    requires NoWrites(pre) && IsWrite(w)
    requires forall e :: e in tail ==> !IsWrite(e) && !e.Upload?
    ensures var ev := pre + [w] + tail;
            forall i, j :: 0 <= i < |ev| && 0 <= j < |ev| && IsWrite(ev[i]) && (IsWrite(ev[j]) || ev[j].Upload?) ==> j <= i
  {
    var ev := pre + [w] + tail;
    var k := |pre|;
    forall i | 0 <= i < |ev| && i != k ensures !IsWrite(ev[i]) {
      if i < k { assert ev[i] == pre[i]; } else { assert ev[i] == tail[i - k - 1]; }
    }
    forall j | k < j < |ev| ensures !ev[j].Upload? {
      assert ev[j] == tail[j - k - 1];
    }
  }

  lemma NoWritesWhenNotSaving(f: BlogForm, coverReply: HostReply, sectionReplies: seq<HostReply>, writeReply: WriteReply)
    requires |sectionReplies| == |f.sections|
    requires !(CanSubmit(f) && CoverUpload(f, coverReply).Success? && SectionUploadsSucceed(f.sections, sectionReplies))
    ensures NoWrites(SubmitEvents(f, coverReply, sectionReplies, writeReply))
  {
    if CanSubmit(f) {
      NoWriteAfterFailedUpload(f, coverReply, sectionReplies, writeReply);
    }
  }

  /** When every upload succeeds, the one write carries: the headline, category and
      status of the form; the new cover's optimized URL in place of the stored cover
      (or the stored cover when no file was picked); the uploaded blocks; the slug of
      the headline; and it is an update exactly when a story is being edited. */
  lemma WrittenRecord(f: BlogForm, coverReply: HostReply, sectionReplies: seq<HostReply>, writeReply: WriteReply)
    requires |sectionReplies| == |f.sections|
    requires CanSubmit(f) && CoverUpload(f, coverReply).Success? && SectionUploadsSucceed(f.sections, sectionReplies)
    ensures var ev := SubmitEvents(f, coverReply, sectionReplies, writeReply);
            var k := |CoverEvents(f)| + |PendingFiles(f.sections)|;
            && k < |ev| && IsWrite(ev[k]) && ev[k].collection == "blogs"
            && (ev[k].Update? <==> Truthy(f.editingId))
            && ev[k].record.title == f.mainTitle
            && ev[k].record.category == f.category
            && ev[k].record.status == f.status
            && ev[k].record.coverImage == (if f.mainImage.Some? then Some(OptimizeUrl(coverReply.secureUrl)) else f.mainImagePrev)
            && ev[k].record.sections == UploadedSections(f.sections, sectionReplies)
            && ev[k].record.slug == Slug(f.mainTitle)
            && (ev[k].record.hasCreatedAt <==> !Truthy(f.editingId))
            && (writeReply.Written? <==> k == |ev| - 1)
  {
  }

  /** The editor: its form state, the flags and the log of outside calls. */
  class BlogEditor {
    var form: BlogForm
    var loading: bool
    var isModalOpen: bool
    ghost var events: seq<Event<BlogRecord>>

    constructor()
      ensures form == InitialBlogForm && !loading && !isModalOpen && events == []
    {
      form := InitialBlogForm;
      loading := false;
      isModalOpen := false;
      events := [];
    }

    /** The headline text area. */
    method EditHeadline(value: string)
      modifies this`form
      ensures form == old(form).(mainTitle := value)
    {
      form := form.(mainTitle := value);
    }

    /** The category select. */
    method SelectCategory(value: string)
      modifies this`form
      ensures form == old(form).(category := value)
    {
      form := form.(category := value);
    }

    /** The visibility select. */
    method SelectVisibility(value: string)
      modifies this`form
      ensures form == old(form).(status := value)
    {
      form := form.(status := value);
    }

    /** The cover picker: a chosen file becomes the cover to upload and its object URL
        (`previewUrl`, made by the browser) the preview; a cancelled dialog changes
        nothing. */
    method PickCover(picked: Option<File>, previewUrl: string)
      modifies this`form
      ensures picked.Some? ==> form == old(form).(mainImage := picked, mainImagePrev := Some(previewUrl))
      ensures picked.None? ==> form == old(form)
    {
      if picked.Some? {
        form := form.(mainImage := picked, mainImagePrev := Some(previewUrl));
      }
    }

    /** The backdrop and the Discard button close the modal; the form is kept. */
    method Discard()
      modifies this`isModalOpen
      ensures !isModalOpen
    {
      isModalOpen := false;
    }

    method AddParagraphSection(id: string)
      modifies this`form
      ensures form == old(form).(sections := AddParagraph(old(form).sections, id))
    {
      form := form.(sections := AddParagraph(form.sections, id));
    }

    method AddImageDetailSection(id: string)
      modifies this`form
      ensures form == old(form).(sections := AddImageDetail(old(form).sections, id))
    {
      form := form.(sections := AddImageDetail(form.sections, id));
    }

    method RemoveSectionById(id: string)
      modifies this`form
      ensures form == old(form).(sections := RemoveSection(old(form).sections, id))
    {
      form := form.(sections := RemoveSection(form.sections, id));
    }

    method UpdateSectionById(id: string, patch: SectionPatch)
      modifies this`form
      ensures form == old(form).(sections := UpdateSection(old(form).sections, id, patch))
    {
      form := form.(sections := UpdateSection(form.sections, id, patch));
    }

    method ResetForm()
      modifies this`form
      ensures form == ResetBlogForm(old(form))
    {
      form := form.(editingId := None);
      form := form.(mainTitle := "");
      form := form.(mainImagePrev := None);
      form := form.(mainImage := None);
      form := form.(sections := []);
      form := form.(status := "Published");
    }

    /** The "New Story" button. */
    method OpenNewStory()
      modifies this`form, this`isModalOpen
      ensures form == ResetBlogForm(old(form)) && isModalOpen
    {
      ResetForm();
      isModalOpen := true;
    }

    /** The pencil button of a listed story. */
    method StartEdit(blog: BlogDoc)
      modifies this`form, this`isModalOpen
      ensures form == EditForm(old(form), blog) && isModalOpen
    {
      form := EditForm(form, blog);
      isModalOpen := true;
    }

    /** The trash button: the delete is issued only when the dialog is confirmed. */
    method DeleteStory(id: string, confirmed: bool)
      modifies this`events
      ensures events == old(events) + ConfirmedDelete("blogs", id, confirmed)
    {
      if confirmed {
        events := events + [Delete("blogs", id)];
      }
    }

    method CallUpload(file: File, reply: HostReply) returns (r: Result<string, string>)
      requires loading
      modifies this`events
      ensures events == old(events) + [Upload(file)]
      ensures r == UploadToCloudinary(reply)
    {
      events := events + [Upload(file)];
      r := UploadToCloudinary(reply);
    }

    method CallWrite(e: Event<BlogRecord>, reply: WriteReply) returns (ok: bool)
      requires loading && IsWrite(e)
      modifies this`events
      ensures events == old(events) + [e]
      ensures ok <==> reply.Written?
    {
      events := events + [e];
      ok := reply.Written?;
    }

    /** The first step of handleSubmit: the stored cover, or the upload of the newly
        picked one. */
    method SettleCover(f: BlogForm, coverReply: HostReply) returns (cover: Result<Option<string>, string>)
      requires loading
      modifies this`events
      ensures events == old(events) + CoverEvents(f)
      ensures cover == CoverUpload(f, coverReply)
    {
      cover := Success(f.mainImagePrev);
      if f.mainImage.Some? {
        var up := CallUpload(f.mainImage.value, coverReply);
        if up.Failure? {
          cover := Failure(up.error);
        } else {
          cover := Success(Some(up.value));
        }
      }
    }

    /** The part of handleSubmit after the cover: Promise.all over the blocks, then the
        write, then closing and resetting the form on success. */
    method SaveSectionsAndWrite(f: BlogForm, cover: Option<string>, sectionReplies: seq<HostReply>, writeReply: WriteReply)
      requires loading && |sectionReplies| == |f.sections|
      requires form == f
      modifies this`form, this`isModalOpen, this`events
      ensures events == old(events) + SectionsAndWriteEvents(f, cover, sectionReplies, writeReply)
      ensures SectionUploadsSucceed(f.sections, sectionReplies) && writeReply.Written? ==>
                form == ResetBlogForm(f) && !isModalOpen
      ensures !(SectionUploadsSucceed(f.sections, sectionReplies) && writeReply.Written?) ==>
                form == f && isModalOpen == old(isModalOpen)
    {
      var updated, files := UploadSections(f.sections, sectionReplies);
      events := events + UploadEvents(files);
      if updated.None? {
        events := events + [Alert(SaveErrorMessage)];
        return;
      }
      var blogData := BlogData(f, cover, updated.value);
      var ok := CallWrite(SaveEvent(f, blogData), writeReply);
      if ok {
        isModalOpen := false;
        ResetForm();
      } else {
        events := events + [Alert(SaveErrorMessage)];
      }
    }

    /** The part of handleSubmit past the guard: the cover, then the blocks and the
        write; on a failed cover upload only an alert follows. */
    method SaveStory(f: BlogForm, coverReply: HostReply, sectionReplies: seq<HostReply>, writeReply: WriteReply)
      requires loading && |sectionReplies| == |f.sections|
      requires form == f && CanSubmit(f)
      modifies this`form, this`isModalOpen, this`events
      ensures events == old(events) + SubmitEvents(f, coverReply, sectionReplies, writeReply)
      ensures Saved(f, coverReply, sectionReplies, writeReply) ==> form == ResetBlogForm(f) && !isModalOpen
      ensures !Saved(f, coverReply, sectionReplies, writeReply) ==> form == f && isModalOpen == old(isModalOpen)
    {
      var cover := SettleCover(f, coverReply);
      SubmitEventsPastGuard(f, coverReply, sectionReplies, writeReply);
      if cover.Failure? {
        events := events + [Alert(SaveErrorMessage)];
        return;
      }
      SaveSectionsAndWrite(f, cover.value, sectionReplies, writeReply);
    }

    /** handleSubmit. `loading` is set before the first outside call and cleared at the
        end on every path past the guard. */
    method HandleSubmit(coverReply: HostReply, sectionReplies: seq<HostReply>, writeReply: WriteReply)
      requires |sectionReplies| == |form.sections|
      modifies this`form, this`loading, this`isModalOpen, this`events
      ensures events == old(events) + SubmitEvents(old(form), coverReply, sectionReplies, writeReply)
      ensures loading == (if CanSubmit(old(form)) then false else old(loading))
      ensures Saved(old(form), coverReply, sectionReplies, writeReply) ==>
                form == ResetBlogForm(old(form)) && !isModalOpen
      ensures !Saved(old(form), coverReply, sectionReplies, writeReply) ==>
                form == old(form) && isModalOpen == old(isModalOpen)
    {
      if !CanSubmit(form) {
        events := events + [Alert(RequiredMessage)];
        return;
      }
      loading := true;
      SaveStory(form, coverReply, sectionReplies, writeReply);
      loading := false;
    }
  }
}
