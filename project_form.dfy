/**
 * The admin project form of src/components/admin/ProjectForm.tsx: the tech-stack editor
 * (add a trimmed, new entry; remove one) and the submit step that validates and trims
 * the fields into the payload handed to `onSave`. React state setters become returned values.
 */
module ProjectForm {
  import opened Wrappers
  import opened Seqs
  import opened Text

  /** The tech stack together with the text of the tech input box. */
  datatype TechEditor = TechEditor(stack: seq<string>, input: string)

  /** `handleAddTech`: the trimmed input is appended and the box cleared, unless it is empty or already listed. */
  function AddTech(e: TechEditor): (r: TechEditor)
    ensures var tech := Trim(e.input);
      && (tech != "" && tech !in e.stack ==> r == TechEditor(e.stack + [tech], ""))
      && (tech == "" || tech in e.stack ==> r == e)
  {
    var tech := Trim(e.input);
    if tech != "" && tech !in e.stack then TechEditor(e.stack + [tech], "") else e
  }

  /** Starting from a duplicate-free stack, adding never introduces a duplicate. */
  lemma AddTechNoDups(e: TechEditor)
    requires NoDups(e.stack)
    ensures NoDups(AddTech(e).stack)
  {
    var tech := Trim(e.input);
    if tech != "" && tech !in e.stack {
      var s := e.stack + [tech];
      forall i, j | 0 <= i < j < |s| ensures s[i] != s[j] {
        assert s[i] == e.stack[i];
        if j < |e.stack| {
          assert s[j] == e.stack[j];
        }
      }
    }
  }

  /** A stack entry as `handleAddTech` admits one: non-empty and with nothing left to trim. */
  predicate Clean(t: string) {
    t != "" && Trim(t) == t
  }

  /** Every entry added is non-empty and already trimmed. */
  lemma AddTechClean(e: TechEditor)
    requires forall i :: 0 <= i < |e.stack| ==> Clean(e.stack[i])
    ensures forall i :: 0 <= i < |AddTech(e).stack| ==> Clean(AddTech(e).stack[i])
  {
    var tech := Trim(e.input);
    if tech != "" && tech !in e.stack {
      TrimIdempotent(e.input);
      AppendClean(e.stack, tech);
    }
  }

  lemma AppendClean(stack: seq<string>, tech: string)
    requires forall i :: 0 <= i < |stack| ==> Clean(stack[i])
    requires Clean(tech)
    ensures forall i :: 0 <= i < |stack + [tech]| ==> Clean((stack + [tech])[i])
  {
    var s := stack + [tech];
    forall i | 0 <= i < |s| ensures Clean(s[i]) {
      if i < |stack| {
        assert s[i] == stack[i];
      }
    }
  }

  /** Pressing add a second time changes nothing. */
  lemma AddTechTwice(e: TechEditor)
    ensures AddTech(AddTech(e)) == AddTech(e)
  {
    var r := AddTech(e);
    if r != e {
      assert Trim("") == "";
    }
  }

  /** `handleRemoveTech`: every copy of the entry goes, the others keep their order. */
  function RemoveTech(stack: seq<string>, tech: string): (r: seq<string>)
    ensures tech !in r
    ensures forall t :: t != tech ==> (t in r <==> t in stack)
    ensures NoDups(stack) ==> NoDups(r)
    ensures |stack| == 1 ==> r == if stack[0] == tech then [] else stack
  {
    RemoveAll(stack, tech)
  }

  /** Removing distributes over concatenation: the entries that stay keep their order. */
  lemma RemoveTechConcat(a: seq<string>, b: seq<string>, tech: string)
    ensures RemoveTech(a + b, tech) == RemoveTech(a, tech) + RemoveTech(b, tech)
  {
    RemoveAllConcat(a, b, tech);
  }

  /** Removing an entry that was just added gives back the stack from before. */
  lemma AddThenRemove(e: TechEditor)
    requires Trim(e.input) != "" && Trim(e.input) !in e.stack
    ensures RemoveTech(AddTech(e).stack, Trim(e.input)) == e.stack
  {
    RemoveAllAppend(e.stack, Trim(e.input));
  }

  /** What `onSave` receives; `websiteLink` is `None` for `undefined`. */
  datatype Payload = Payload(title: string, description: string, image: string, websiteLink: Option<string>, techStack: seq<string>)

  /** `handleSubmit`: no save when the trimmed title or description is empty; otherwise the trimmed fields. */
  function Submit(title: string, description: string, image: string, websiteLink: string, techStack: seq<string>): (r: Option<Payload>)
    ensures r.None? <==> Trim(title) == "" || Trim(description) == ""
    ensures r.Some? ==> r.value.title == Trim(title) && r.value.description == Trim(description)
    ensures r.Some? ==> r.value.image == Trim(image) && r.value.techStack == techStack
    ensures r.Some? ==> (r.value.websiteLink.None? <==> Trim(websiteLink) == "")
    ensures r.Some? && r.value.websiteLink.Some? ==> r.value.websiteLink.value == Trim(websiteLink)
  {
    if Trim(title) == "" || Trim(description) == "" then None
    else
      var link := Trim(websiteLink);
      Some(Payload(Trim(title), Trim(description), Trim(image), if link == "" then None else Some(link), techStack))
  }

  /** A saved payload, loaded back into the form and submitted again, saves the same payload. */
  lemma SubmitRoundTrip(title: string, description: string, image: string, websiteLink: string, techStack: seq<string>)
    requires Submit(title, description, image, websiteLink, techStack).Some?
    ensures var p := Submit(title, description, image, websiteLink, techStack).value;
      Submit(p.title, p.description, p.image, if p.websiteLink.Some? then p.websiteLink.value else "", p.techStack) == Some(p)
  {
    TrimIdempotent(title);
    TrimIdempotent(description);
    TrimIdempotent(image);
    TrimIdempotent(websiteLink);
  }
}
