/**
 * deepimagej.stamp.InformationStamp: the page of the model-building wizard
 * where the user names the model and lists its authors, tags and
 * references. Texts that contain a character YAML treats specially are
 * wrapped in double quotes; the tag "deepimagej" is always first and
 * cannot be removed; finish copies the page into the model's parameters,
 * empty optional fields becoming null.
 *
 * The text fields and the list selections are the user's input: the text
 * fields are fields of the class, a selection is the index the list
 * reports (-1 for none).
 */
module InformationStamp {
  import opened Wrappers
  import JavaString

  /** The characters coverForbiddenSymbols looks for, in its order. */
  const Forbidden: seq<char> := [':', '{', '}', '[', ']', '>', '=', '!', ',', '&', '*', '#', '?', '|', '-', '<',
                                 '\U{A1}', '\U{BF}', '%', '@', '\U{D1}', '\U{F1}']

  const DefaultTag: string := "deepimagej"

  /** One of the characters in Forbidden. */
  predicate IsForbidden(c: char)
  {
    c == ':' || c == '{' || c == '}' || c == '[' || c == ']' || c == '>' || c == '=' || c == '!' ||
    c == ',' || c == '&' || c == '*' || c == '#' || c == '?' || c == '|' || c == '-' || c == '<' ||
    c == '\U{A1}' || c == '\U{BF}' || c == '%' || c == '@' || c == '\U{D1}' || c == '\U{F1}'
  }

  /** IsForbidden says the same as membership in the list. */
  lemma ForbiddenListed(c: char)
    ensures IsForbidden(c) <==> c in Forbidden
  {
  }

  /** The text contains at least one forbidden character. */
  predicate HasForbidden(txt: string)
  {
    exists k :: 0 <= k < |txt| && IsForbidden(txt[k])
  }

  /**
   * What coverForbiddenSymbols returns: the text between double quotes when
   * it holds a forbidden character, the text itself otherwise.
   */
  function Covered(txt: string): string
  {
    if HasForbidden(txt) then "\"" + txt + "\"" else txt
  }

  /**
   * A covered text is the text itself exactly when it holds no forbidden
   * character; otherwise it is two characters longer, starts and ends with
   * a double quote, and the text is what lies between them.
   */
  lemma CoverShape(txt: string)
    ensures Covered(txt) == txt <==> !HasForbidden(txt)
    ensures HasForbidden(txt) ==>
              var r := Covered(txt);
              |r| == |txt| + 2 && r[0] == '"' && r[|r| - 1] == '"' && r[1..|r| - 1] == txt
  {
    if HasForbidden(txt) {
      var r := Covered(txt);
      assert r[1..|r| - 1] == txt;
      assert |r| != |txt|;
    }
  }

  /** Only the empty text covers to the empty text. */
  lemma CoverEmptyIff(txt: string)
    ensures Covered(txt) == "" <==> txt == ""
  {
    if txt == "" {
      assert !HasForbidden(txt);
    }
  }

  /** Quoting adds no forbidden character, so a quoted text is quoted again: covering is not idempotent. */
  lemma CoverTwice(txt: string)
    requires HasForbidden(txt)
    ensures Covered(Covered(txt)) == "\"\"" + txt + "\"\""
  {
    var k :| 0 <= k < |txt| && IsForbidden(txt[k]);
    var once := "\"" + txt + "\"";
    assert Covered(txt) == once;
    assert once[k + 1] == txt[k];
    assert HasForbidden(once);
    assert "\"" + once + "\"" == "\"\"" + txt + "\"\"";
  }

  /** coverForbiddenSymbols: the first listed character the text contains decides; the text is quoted once. */
  method CoverForbiddenSymbols(txt: string) returns (r: string)
    ensures r == Covered(txt)
  {
    r := txt;
    var i := 0;
    while i < |Forbidden|
      invariant 0 <= i <= |Forbidden|
      invariant forall j :: 0 <= j < i ==> Forbidden[j] !in txt
    {
      JavaString.ContainsChar(txt, Forbidden[i]);
      if JavaString.Contains(txt, [Forbidden[i]]) {
        ForbiddenListed(Forbidden[i]);
        r := "\"" + txt + "\"";
        return;
      }
      i := i + 1;
    }
    forall k | 0 <= k < |txt|
      ensures !IsForbidden(txt[k])
    {
      ForbiddenListed(txt[k]);
    }
  }

  /** The list without its entry at i: ArrayList.remove(int). */
  function RemoveAt<T>(s: seq<T>, i: nat): (r: seq<T>)
    requires i < |s|
    ensures |r| == |s| - 1
    ensures forall j :: 0 <= j < i ==> r[j] == s[j]
    ensures forall j :: i <= j < |r| ==> r[j] == s[j + 1]
  {
    s[..i] + s[i + 1..]
  }

  /** Removing the entry just appended gives back the list before the append. */
  lemma RemoveLastAdded<T>(s: seq<T>, x: T)
    ensures RemoveAt(s + [x], |s|) == s
  {
    assert (s + [x])[..|s|] == s;
  }

  /** The outcome of an add or remove button. */
  datatype Outcome = Done | Refused(message: string) | Thrown

  /** A reference: the text and the doi. */
  datatype Citation = Citation(text: string, doi: string)

  /** The text fields of the page, as the user left them. */
  datatype Page = Page(name: string, author: string, tag: string, documentation: string, gitRepo: string,
                       license: string, description: string)

  const EmptyPage := Page("", "", "", "", "", "", "")

  /** The descriptive fields of the model's Parameters that finish writes; null is None. */
  datatype ModelInfo = ModelInfo(name: Option<string>, documentation: Option<string>, gitRepo: Option<string>,
                                 license: Option<string>, description: Option<string>,
                                 author: Option<seq<string>>, cite: seq<Citation>, infoTags: seq<string>)

  /** The model's Parameters, as far as this page is concerned. */
  class Parameters {
    var info: ModelInfo

    constructor()
      ensures info == ModelInfo(None, None, None, None, None, None, [], [])
    {
      info := ModelInfo(None, None, None, None, None, None, [], []);
    }
  }

  /** An optional field as finish stores it: trimmed, null when empty, covered when asked. */
  function OptionalField(text: string, cover: bool): (r: Option<string>)
    ensures r.None? <==> JavaString.Trim(text) == ""
    ensures r.Some? && !cover ==> r.value == JavaString.Trim(text)
    ensures r.Some? && cover ==> r.value == Covered(JavaString.Trim(text)) && r.value != ""
  {
    var t := JavaString.Trim(text);
    CoverEmptyIff(t);
    if t == "" then None else Some(if cover then Covered(t) else t)
  }

  /**
   * What finish writes for a page with a name: the name covered, the
   * documentation and repository trimmed, the licence and description
   * trimmed and covered, each null when empty; the authors null when there
   * are none; the references and tags as they are.
   */
  function Finished(page: Page, authors: seq<string>, citations: seq<Citation>, tags: seq<string>): (r: ModelInfo)
    requires JavaString.Trim(page.name) != ""
    ensures r.name.Some? && r.name.value != "" && r.name == OptionalField(page.name, true)
    ensures r.documentation.None? <==> JavaString.Trim(page.documentation) == ""
    ensures r.gitRepo.None? <==> JavaString.Trim(page.gitRepo) == ""
    ensures r.license.None? <==> JavaString.Trim(page.license) == ""
    ensures r.description.None? <==> JavaString.Trim(page.description) == ""
    ensures r.author.None? <==> authors == []
    ensures r.author.Some? ==> r.author.value == authors
    ensures r.cite == citations && r.infoTags == tags
  {
    ModelInfo(OptionalField(page.name, true), OptionalField(page.documentation, false), OptionalField(page.gitRepo, false),
              OptionalField(page.license, true), OptionalField(page.description, true),
              if |authors| > 0 then Some(authors) else None, citations, tags)
  }

  /** One optional field of finish: trimmed, then null when empty or covered when asked. */
  method StoreField(text: string, cover: bool) returns (r: Option<string>)
    ensures r == OptionalField(text, cover)
  {
    var t := JavaString.Trim(text);
    if t == "" {
      return None;
    }
    if cover {
      var c := CoverForbiddenSymbols(t);
      return Some(c);
    }
    return Some(t);
  }

  class InformationStamp {
    /** txtName, txtAuth, txtTag, txtDocumentation, txtGitRepo, txtLicense and txtDescription. */
    var page: Page
    /** introducedAuth, introducedTag and introducedCitation. */
    var authors: seq<string>
    var tags: seq<string>
    var citations: seq<Citation>
    /** What the author and tag lists on screen hold. */
    var shownAuthors: seq<string>
    var shownTags: seq<string>
    /** The path of the model the page was last filled for. */
    var model: string

    /**
     * "deepimagej" is the first tag and the tag list shows the tags; the
     * author list shows the authors, or one blank line while there are none
     * after init.
     */
    predicate Valid()
      reads this
    {
      |tags| >= 1 && tags[0] == DefaultTag && shownTags == tags &&
      (shownAuthors == authors || (authors == [] && shownAuthors == [""]))
    }

    /** The constructor with buildPanel: empty fields and the tag "deepimagej". */
    constructor()
      ensures Valid()
      ensures page == EmptyPage && tags == [DefaultTag] && authors == [] && shownAuthors == [] && citations == [] &&
              model == ""
    {
      page := EmptyPage;
      authors := [];
      tags := [DefaultTag];
      citations := [];
      shownAuthors := [];
      shownTags := [DefaultTag];
      model := "";
    }

    /**
     * init: for a model other than the last one, the name becomes the
     * model's file name and the lists and the other fields start over.
     * The file name is given, as java.io.File computes it.
     */
    method Init(path2Model: string, fileName: string)
      requires Valid()
      modifies this
      ensures Valid()
      ensures old(model) == path2Model ==> unchanged(this)
      ensures old(model) != path2Model ==>
                page == EmptyPage.(name := fileName) && model == path2Model &&
                authors == [] && shownAuthors == [""] && citations == [] && tags == [DefaultTag]
    {
      if model != path2Model {
        page := EmptyPage.(name := fileName);
        model := path2Model;
        authors := [];
        shownAuthors := [""];
        citations := [];
        tags := [DefaultTag];
        shownTags := [DefaultTag];
      }
    }

    /** addAuthor: the covered, trimmed author text is appended unless it is empty. */
    method AddAuthor() returns (r: Outcome)
      requires Valid()
      modifies this
      ensures Valid()
      ensures r == Done || r == Refused("Introduce a name")
      ensures r.Refused? <==> JavaString.Trim(old(page.author)) == ""
      ensures r.Refused? ==> unchanged(this)
      ensures r.Done? ==>
                authors == old(authors) + [Covered(JavaString.Trim(old(page.author)))] && shownAuthors == authors &&
                page == old(page).(author := "") && tags == old(tags) && citations == old(citations) &&
                model == old(model)
    {
      var authName := CoverForbiddenSymbols(JavaString.Trim(page.author));
      CoverEmptyIff(JavaString.Trim(page.author));
      if authName == "" {
        return Refused("Introduce a name");
      }
      authors := authors + [authName];
      shownAuthors := authors;
      page := page.(author := "");
      return Done;
    }

    /**
     * removeAuthor on the selected line: -1 is refused, a line that is an
     * author is removed, and the blank line shown after init throws
     * IndexOutOfBoundsException.
     */
    method RemoveAuthor(selected: int) returns (r: Outcome)
      requires Valid() && -1 <= selected < |shownAuthors|
      modifies this
      ensures Valid()
      ensures r.Refused? <==> selected == -1
      ensures r.Refused? ==> r.message == "No author selected"
      ensures r.Thrown? <==> 0 <= selected && |old(authors)| <= selected
      ensures !r.Done? ==> unchanged(this)
      ensures r.Done? ==>
                authors == RemoveAt(old(authors), selected) && shownAuthors == authors &&
                page == old(page) && tags == old(tags) && citations == old(citations) && model == old(model)
    {
      if selected == -1 {
        return Refused("No author selected");
      }
      if selected >= |authors| {
        return Thrown;
      }
      authors := RemoveAt(authors, selected);
      shownAuthors := authors;
      return Done;
    }

    /** addTag: the covered, trimmed tag text is appended unless it is empty. */
    method AddTag() returns (r: Outcome)
      requires Valid()
      modifies this
      ensures Valid()
      ensures r == Done || r == Refused("Introduce a name")
      ensures r.Refused? <==> JavaString.Trim(old(page.tag)) == ""
      ensures r.Refused? ==> unchanged(this)
      ensures r.Done? ==>
                tags == old(tags) + [Covered(JavaString.Trim(old(page.tag)))] &&
                page == old(page).(tag := "") && authors == old(authors) && shownAuthors == old(shownAuthors) &&
                citations == old(citations) && model == old(model)
    {
      var tag := CoverForbiddenSymbols(JavaString.Trim(page.tag));
      CoverEmptyIff(JavaString.Trim(page.tag));
      if tag == "" {
        return Refused("Introduce a name");
      }
      tags := tags + [tag];
      shownTags := tags;
      page := page.(tag := "");
      return Done;
    }

    /** removeTag on the selected line: -1 and the first tag are refused, any other tag is removed. */
    method RemoveTag(selected: int) returns (r: Outcome)
      requires Valid() && -1 <= selected < |shownTags|
      modifies this
      ensures Valid()
      ensures r.Refused? <==> selected == -1 || selected == 0
      ensures selected == -1 ==> r == Refused("No tag selected")
      ensures selected == 0 ==> r == Refused("Cannot remove 'deepimagej' tag")
      ensures r.Refused? ==> unchanged(this)
      ensures !r.Refused? ==>
                r.Done? && tags == RemoveAt(old(tags), selected) && tags[0] == DefaultTag &&
                page == old(page) && authors == old(authors) && shownAuthors == old(shownAuthors) &&
                citations == old(citations) && model == old(model)
    {
      if selected == -1 {
        return Refused("No tag selected");
      } else if selected == 0 {
        return Refused("Cannot remove 'deepimagej' tag");
      }
      tags := RemoveAt(tags, selected);
      shownTags := tags;
      return Done;
    }

    /** finish: an empty trimmed name is refused and nothing is written; otherwise the page is copied into the parameters. */
    method Finish(params: Parameters) returns (ok: bool)
      modifies params
      ensures ok <==> JavaString.Trim(page.name) != ""
      ensures !ok ==> unchanged(params)
      ensures ok ==> params.info == Finished(page, authors, citations, tags)
    {
      var name := JavaString.Trim(page.name);
      if name == "" {
        return false;
      }
      var coveredName := CoverForbiddenSymbols(name);
      var documentation := StoreField(page.documentation, false);
      var gitRepo := StoreField(page.gitRepo, false);
      var license := StoreField(page.license, true);
      var description := StoreField(page.description, true);
      params.info := ModelInfo(Some(coveredName), documentation, gitRepo, license, description,
                               if |authors| > 0 then Some(authors) else None, citations, tags);
      return true;
    }
  }

  /** Right after a new model's init, the blank author line can be selected, and removing it throws. */
  method BlankAuthorLine() returns (r: Outcome)
    ensures r.Thrown?
  {
    var stamp := new InformationStamp();
    stamp.Init("model", "model");
    r := stamp.RemoveAuthor(0);
  }
}
