/**
 * The `/process-file` route: which card types a request asks for, how the
 * generated lists are gathered into the response, and the status codes of
 * the request checks.
 *
 * The route reads the upload and hands it to `extract_text_from_file`. That
 * dispatcher refuses a failed document with status 400, naming its kind. The
 * document library's parsing, the upload read, generation and translation are
 * parameters (`parse`, `read`, `generate`, `translate`). A raising read,
 * generation or translation becomes status 500.
 */
module FileProcessing {
  import opened Text
  import opened Wrappers
  import opened Json
  import opened Utils
  import Cleaning

  // ---------------------------------------------------------------------
  // Card types

  /** The card types a request may ask for. */
  const CardKinds: seq<string> := ["flashcard", "exercise", "quiz"]

  /** `[ct for ct in card_types if ct in ["flashcard", "exercise", "quiz"]]`. */
  function ValidTypes(cardTypes: seq<string>): (r: seq<string>)
    ensures forall i :: 0 <= i < |r| ==> r[i] in CardKinds
    ensures forall x :: x in cardTypes && x in CardKinds ==> x in r
    ensures forall x :: x in r ==> x in cardTypes
  {
    if cardTypes == [] then []
    else if cardTypes[0] in CardKinds then [cardTypes[0]] + ValidTypes(cardTypes[1..])
    else ValidTypes(cardTypes[1..])
  }

  /** `a` is `b` with some elements left out, the rest in their order. */
  predicate Subsequence(a: seq<string>, b: seq<string>)
    decreases |b|
  {
    if a == [] then true
    else if b == [] then false
    else if a[0] == b[0] then Subsequence(a[1..], b[1..])
    else Subsequence(a, b[1..])
  }

  /** The filter keeps the order of the request. */
  lemma {:induction false} ValidTypesInOrder(cardTypes: seq<string>)
    ensures Subsequence(ValidTypes(cardTypes), cardTypes)
  {
    if cardTypes != [] {
      ValidTypesInOrder(cardTypes[1..]);
    }
  }

  /** `get_card_types(card_types)`: no field means flashcards only. */
  function CardTypes(cardTypes: Option<seq<string>>): (r: seq<string>)
    ensures r != []
    ensures forall i :: 0 <= i < |r| ==> r[i] in CardKinds
  {
    match cardTypes
    case None => ["flashcard"]
    case Some(requested) =>
      var valid := ValidTypes(requested);
      if valid != [] then valid else ["flashcard"]
  }

  /**
   * The card types are the known ones among those asked for, in the order
   * asked; when there are none (or no field at all) they are flashcards only.
   */
  lemma CardTypesSpec(cardTypes: Option<seq<string>>)
    ensures cardTypes.None? ==> CardTypes(cardTypes) == ["flashcard"]
    ensures cardTypes.Some? && (forall x :: x in cardTypes.value ==> x !in CardKinds) ==>
      CardTypes(cardTypes) == ["flashcard"]
    ensures cardTypes.Some? && (exists x :: x in cardTypes.value && x in CardKinds) ==>
      Subsequence(CardTypes(cardTypes), cardTypes.value)
      && forall x :: x in CardKinds ==> (x in CardTypes(cardTypes) <==> x in cardTypes.value)
  {
    if cardTypes.Some? {
      ValidTypesInOrder(cardTypes.value);
    }
  }

  // ---------------------------------------------------------------------
  // Gathering the generated lists

  /** The response fields built so far and the number of items in them. */
  datatype Assembly = Assembly(fields: seq<(string, Value)>, total: nat)

  /** The number of items in the lists of `fields`. */
  function ItemCount(fields: seq<(string, Value)>): nat {
    if fields == [] then 0
    else ItemCount(fields[..|fields| - 1]) + Length(fields[|fields| - 1].1)
  }

  /** The length of a list, and 0 for anything else. */
  function Length(v: Value): nat {
    if v.Arr? then |v.items| else 0
  }

  /** The field one kind contributes: its list under `key`, when asked for and not empty. */
  function Part(cardTypes: seq<string>, all: Value, kind: string, key: string): (r: seq<(string, Value)>)
    ensures |r| <= 1
  {
    if kind in cardTypes && all.Obj? then
      var v := Field(all, key, Arr([]));
      if v.Arr? && |v.items| > 0 then [(key, v)] else []
    else []
  }

  /** Some kind is asked for, so `all_content.get` is called at least once. */
  predicate AnyKind(cardTypes: seq<string>) {
    "flashcard" in cardTypes || "quiz" in cardTypes || "exercise" in cardTypes
  }

  /**
   * The response dict: flashcards, quizzes and exercises in that order; `.get`
   * on anything but a dict raises.
   */
  function Assembled(cardTypes: seq<string>, all: Value): Outcome<Assembly> {
    if !all.Obj? && AnyKind(cardTypes) then Raised
    else
      var fields := Part(cardTypes, all, "flashcard", "flashcards")
                    + Part(cardTypes, all, "quiz", "quizzes")
                    + Part(cardTypes, all, "exercise", "exercises");
      Ok(Assembly(fields, ItemCount(fields)))
  }

  /** `fields` has a field named `key`. */
  predicate HasKey(fields: seq<(string, Value)>, key: string) {
    exists i :: 0 <= i < |fields| && fields[i].0 == key
  }

  /** The kind of card each response key holds. */
  function KindOf(key: string): string {
    if key == "flashcards" then "flashcard" else if key == "quizzes" then "quiz" else "exercise"
  }

  /** One kind's field: present exactly when asked for and non-empty, and then the generated list. */
  lemma PartSpec(cardTypes: seq<string>, all: Value, kind: string, key: string)
    requires all.Obj?
    ensures var p := Part(cardTypes, all, kind, key);
      (p != [] <==> kind in cardTypes && Field(all, key, Arr([])).Arr? && |Field(all, key, Arr([])).items| > 0)
      && (p != [] ==> p == [(key, Field(all, key, Arr([])))])
  {
  }

  /** The keys of three parts of at most one field each, named apart. */
  lemma HasKeyOfParts(f: seq<(string, Value)>, q: seq<(string, Value)>, e: seq<(string, Value)>, key: string)
    requires f == [] || (|f| == 1 && f[0].0 == "flashcards")
    requires q == [] || (|q| == 1 && q[0].0 == "quizzes")
    requires e == [] || (|e| == 1 && e[0].0 == "exercises")
    ensures HasKey(f + q + e, key) <==>
      (key == "flashcards" && f != []) || (key == "quizzes" && q != []) || (key == "exercises" && e != [])
    ensures forall i, j :: 0 <= i < j < |f + q + e| ==> (f + q + e)[i].0 != (f + q + e)[j].0
    ensures forall i :: 0 <= i < |f + q + e| ==> (f + q + e)[i] in f || (f + q + e)[i] in q || (f + q + e)[i] in e
  {
    var fields := f + q + e;
    if key == "flashcards" && f != [] {
      assert fields[0].0 == key;
    } else if key == "quizzes" && q != [] {
      assert fields[|f|].0 == key;
    } else if key == "exercises" && e != [] {
      assert fields[|f| + |q|].0 == key;
    }
  }

  /** What the assembled fields say about the generated content. */
  predicate FieldsOf(cardTypes: seq<string>, all: Value, fields: seq<(string, Value)>)
    requires all.Obj?
  {
    |fields| <= 3
    && (forall i, j :: 0 <= i < j < |fields| ==> fields[i].0 != fields[j].0)
    && (forall i :: 0 <= i < |fields| ==>
          KindOf(fields[i].0) in cardTypes && fields[i].1 == Field(all, fields[i].0, Arr([])))
    && forall key :: key in CardKeys ==>
          (HasKey(fields, key) <==>
             KindOf(key) in cardTypes && Field(all, key, Arr([])).Arr? && |Field(all, key, Arr([])).items| > 0)
  }

  /** The keys of the response, one per card kind. */
  const CardKeys: set<string> := {"flashcards", "quizzes", "exercises"}

  /** The three parts together satisfy `FieldsOf`. */
  lemma PartsFieldsOf(cardTypes: seq<string>, all: Value, f: seq<(string, Value)>, q: seq<(string, Value)>, e: seq<(string, Value)>)
    requires all.Obj?
    requires f == Part(cardTypes, all, "flashcard", "flashcards")
    requires q == Part(cardTypes, all, "quiz", "quizzes")
    requires e == Part(cardTypes, all, "exercise", "exercises")
    ensures FieldsOf(cardTypes, all, f + q + e)
  {
    PartSpec(cardTypes, all, "flashcard", "flashcards");
    PartSpec(cardTypes, all, "quiz", "quizzes");
    PartSpec(cardTypes, all, "exercise", "exercises");
    forall key | key in CardKeys
      ensures HasKey(f + q + e, key) <==>
        KindOf(key) in cardTypes && Field(all, key, Arr([])).Arr? && |Field(all, key, Arr([])).items| > 0
    {
      HasKeyOfParts(f, q, e, key);
    }
    HasKeyOfParts(f, q, e, "");
    var fields := f + q + e;
    forall i | 0 <= i < |fields|
      ensures KindOf(fields[i].0) in cardTypes && fields[i].1 == Field(all, fields[i].0, Arr([]))
    {
      assert fields[i] in f || fields[i] in q || fields[i] in e;
    }
  }

  /**
   * A key is in the response exactly when its kind was asked for and the
   * generated list under it is a non-empty list, which is then copied as it
   * is; no other key appears, none appears twice, and the total is the sum
   * of the lengths of the included lists.
   */
  lemma AssembledSpec(cardTypes: seq<string>, all: Value)
    ensures Assembled(cardTypes, all).Raised? <==> !all.Obj? && AnyKind(cardTypes)
    ensures Assembled(cardTypes, all).Ok? ==>
      Assembled(cardTypes, all).value.total == ItemCount(Assembled(cardTypes, all).value.fields)
    ensures Assembled(cardTypes, all).Ok? && all.Obj? ==>
      FieldsOf(cardTypes, all, Assembled(cardTypes, all).value.fields)
    ensures Assembled(cardTypes, all).Ok? && !all.Obj? ==> Assembled(cardTypes, all).value.fields == []
  {
    if all.Obj? {
      PartsFieldsOf(cardTypes, all, Part(cardTypes, all, "flashcard", "flashcards"),
        Part(cardTypes, all, "quiz", "quizzes"), Part(cardTypes, all, "exercise", "exercises"));
    }
  }

  /** `all_content.get(key, [])` and, when it is a non-empty list, its field. */
  method AddPart(cardTypes: seq<string>, all: Value, kind: string, key: string, a: Assembly)
    returns (r: Outcome<Assembly>)
    ensures r == if kind in cardTypes && !all.Obj? then Raised
                 else Ok(Assembly(a.fields + Part(cardTypes, all, kind, key),
                                  a.total + ItemCount(Part(cardTypes, all, kind, key))))
  {
    if kind !in cardTypes {
      assert a.fields + [] == a.fields;
      return Ok(a);
    }
    var got := Get(all, key, Arr([]));
    if got.Raised? {
      return Raised;
    }
    var items := got.value;
    if items.Arr? && |items.items| > 0 {
      assert Part(cardTypes, all, kind, key) == [(key, items)];
      assert ItemCount([(key, items)]) == |items.items|;
      return Ok(Assembly(a.fields + [(key, items)], a.total + |items.items|));
    }
    assert Part(cardTypes, all, kind, key) == [];
    assert a.fields + [] == a.fields;
    return Ok(a);
  }

  /** Appending fields adds their items to the count. */
  lemma {:induction false} ItemCountAppend(a: seq<(string, Value)>, b: seq<(string, Value)>)
    ensures ItemCount(a + b) == ItemCount(a) + ItemCount(b)
    decreases |b|
  {
    if b != [] {
      var b' := b[..|b| - 1];
      assert (a + b)[..|a + b| - 1] == a + b';
      ItemCountAppend(a, b');
    } else {
      assert a + b == a;
    }
  }

  /** The dict of generated lists and the running total that `process_file` builds after the content is generated. */
  method Assemble(cardTypes: seq<string>, all: Value) returns (r: Outcome<Assembly>)
    ensures r == Assembled(cardTypes, all)
  {
    var f := Part(cardTypes, all, "flashcard", "flashcards");
    var q := Part(cardTypes, all, "quiz", "quizzes");
    var e := Part(cardTypes, all, "exercise", "exercises");
    var a := Assembly([], 0);
    var step := AddPart(cardTypes, all, "flashcard", "flashcards", a);
    if step.Raised? {
      AssembledRaises(cardTypes, all);
      return Raised;
    }
    a := step.value;
    assert [] + f == f;
    assert a == Assembly(f, ItemCount(f));
    step := AddPart(cardTypes, all, "quiz", "quizzes", a);
    if step.Raised? {
      AssembledRaises(cardTypes, all);
      return Raised;
    }
    a := step.value;
    ItemCountAppend(f, q);
    assert a == Assembly(f + q, ItemCount(f + q));
    step := AddPart(cardTypes, all, "exercise", "exercises", a);
    if step.Raised? {
      AssembledRaises(cardTypes, all);
      return Raised;
    }
    a := step.value;
    ItemCountAppend(f + q, e);
    assert a == Assembly(f + q + e, ItemCount(f + q + e));
    AssembledOk(cardTypes, all);
    return Ok(a);
  }

  lemma AssembledRaises(cardTypes: seq<string>, all: Value)
    requires !all.Obj? && AnyKind(cardTypes)
    ensures Assembled(cardTypes, all) == Raised
  {
  }

  lemma AssembledOk(cardTypes: seq<string>, all: Value)
    requires all.Obj? || !AnyKind(cardTypes)
    ensures var fields := Part(cardTypes, all, "flashcard", "flashcards")
                          + Part(cardTypes, all, "quiz", "quizzes")
                          + Part(cardTypes, all, "exercise", "exercises");
            Assembled(cardTypes, all) == Ok(Assembly(fields, ItemCount(fields)))
  {
  }

  // ---------------------------------------------------------------------
  // The route

  /** The `detail` of each HTTP error the route raises. */
  datatype Detail =
    | UnsupportedLanguage | UnsupportedFileType | ProcessingFailed(kind: string)
    | NoText | NoContent | InternalError

  /** The text of each detail. */
  function DetailText(d: Detail): string {
    match d
    case UnsupportedLanguage => "Unsupported language"
    case UnsupportedFileType => "Unsupported file type"
    case ProcessingFailed(kind) => "Error processing " + kind + " file"
    case NoText => "No text content found in the document"
    case NoContent => "Failed to generate content. Please try again or check if the document contains sufficient text."
    case InternalError => "Internal server error"
  }

  /** What `/process-file` answers: the generated content or an HTTP error. */
  datatype Response = Content(generatedContent: Value) | Error(status: nat, detail: Detail)

  /** `file.filename.split(".")[-1].lower()`. */
  function Extension(filename: string): (r: string)
    ensures !Contains(filename, ".") ==> r == Lower(filename)
  {
    var parts := Split(filename, ['.']);
    Lower(parts[|parts| - 1])
  }

  /** The extension is the text after the last `.`, lower-cased: `notes.tar.PDF` gives `pdf`. */
  lemma ExtensionAfterLastDot(filename: string)
    ensures Extension(filename) == Lower(filename[RFindChar(filename, '.') + 1..])
  {
    var parts := Split(filename, ['.']);
    ExtensionOfPieces(filename, parts);
    SplitLast(filename, '.');
    LowerLastPiece(parts, filename, Extension(filename));
  }

  /** `Extension` lower-cases the last of the pieces of the name split at `.`. */
  lemma ExtensionOfPieces(filename: string, parts: seq<string>)
    requires parts == Split(filename, ['.'])
    ensures Extension(filename) == Lower(parts[|parts| - 1])
  {
  }

  /** Lower-casing the last piece is lower-casing the text after the last `.`. */
  lemma LowerLastPiece(parts: seq<string>, filename: string, ext: string)
    requires LastPiece(parts, filename, '.')
    requires ext == Lower(parts[|parts| - 1])
    ensures ext == Lower(filename[RFindChar(filename, '.') + 1..])
  {
  }

  // ---------------------------------------------------------------------
  // Text extraction

  /** The extensions `extract_text_from_file` dispatches on. */
  const ExtractableKinds: seq<string> := ["pdf", "docx", "pptx", "txt"]

  /** The kind each extractor names in its error: the extension in capitals. */
  function KindName(extension: string): (r: string)
    requires extension in ExtractableKinds
    ensures |r| == |extension| && forall i :: 0 <= i < |r| ==> r[i] == UpperChar(extension[i])
  {
    if extension == "pdf" then "PDF"
    else if extension == "docx" then "DOCX"
    else if extension == "pptx" then "PPTX"
    else "TXT"
  }

  /** What `extract_text_from_file` gives: the cleaned text, or a refusal with status 400. */
  datatype Extraction = Extracted(text: string) | Refused(detail: Detail)

  /**
   * `extract_text_from_file(content, extension)`. `parse(kind, content)` is
   * the document library's text for a kind (the pages, paragraphs, shapes or
   * decoded bytes, each followed by a newline), or `None` when it raises.
   * Each `extract_text_from_<kind>` catches any exception and raises a 400
   * naming its kind; otherwise it returns the text through `clean_text`.
   */
  function ExtractTextFromFile(content: seq<bv8>, extension: string,
                               parse: (string, seq<bv8>) -> Option<string>,
                               isWord: char -> bool): Extraction
  {
    var kind := Lower(extension);
    if kind !in ExtractableKinds then Refused(UnsupportedFileType)
    else match parse(kind, content)
      case None => Refused(ProcessingFailed(KindName(kind)))
      case Some(raw) => Extracted(Cleaning.UtilsCleanText(raw, isWord))
  }

  /**
   * Only an unknown extension is refused as unsupported. A known kind whose
   * parsing fails is refused with "Error processing <KIND> file". Otherwise the
   * text is the cleaned one: empty exactly when the parsed text is blank, with
   * plain spaces as its only whitespace.
   */
  lemma ExtractTextSpec(content: seq<bv8>, extension: string,
                        parse: (string, seq<bv8>) -> Option<string>, isWord: char -> bool)
    ensures ExtractTextFromFile(content, extension, parse, isWord) == Refused(UnsupportedFileType)
      <==> Lower(extension) !in ExtractableKinds
    ensures Lower(extension) in ExtractableKinds && parse(Lower(extension), content).None? ==>
      ExtractTextFromFile(content, extension, parse, isWord) == Refused(ProcessingFailed(KindName(Lower(extension))))
    ensures Lower(extension) in ExtractableKinds && parse(Lower(extension), content).Some? ==>
      var r := ExtractTextFromFile(content, extension, parse, isWord);
      r.Extracted?
      && (r.text == [] <==> AllSpace(parse(Lower(extension), content).value))
      && Cleaning.OnlyBlanks(r.text)
  {
  }

  /** Every extension the route accepts is one the dispatcher knows, so its "Unsupported file type" is never reached from the route. */
  lemma ValidatedIsExtractable(content: seq<bv8>, extension: string,
                               parse: (string, seq<bv8>) -> Option<string>, isWord: char -> bool)
    requires ValidateFileType(extension)
    ensures Lower(extension) in ExtractableKinds
    ensures ExtractTextFromFile(content, extension, parse, isWord) != Refused(UnsupportedFileType)
  {
  }

  /**
   * The end of `process_file` given the (translated) generated content: an exception
   * anywhere becomes 500, no items at all becomes 422.
   */
  function Finish(cardTypes: seq<string>, generated: Outcome<Value>): Response {
    match generated
    case Raised => Error(500, InternalError)
    case Ok(all) =>
      match Assembled(cardTypes, all)
      case Raised => Error(500, InternalError)
      case Ok(a) => if a.total == 0 then Error(422, NoContent) else Content(Obj(a.fields))
  }

  /**
   * `process_file`: `read` is `await file.read()`, `parse` and `isWord` are
   * those of `ExtractTextFromFile`, `generate` is
   * `generate_document_content(text, "en", difficulty)` and `translate` is
   * `translate_generated_content`. An `HTTPException` from the extractor
   * passes through the route unchanged.
   */
  function Respond(filename: string, language: string, cardTypes: seq<string>, difficulty: string,
                   read: Outcome<seq<bv8>>, parse: (string, seq<bv8>) -> Option<string>, isWord: char -> bool,
                   generate: (string, string, string) -> Outcome<Value>,
                   translate: (Value, string) -> Outcome<Value>): Response
  {
    if !ValidateLanguage(language) then Error(400, UnsupportedLanguage)
    else
      var level := ValidateDifficulty(difficulty);
      var extension := Extension(filename);
      if !ValidateFileType(extension) then Error(400, UnsupportedFileType)
      else match read
        case Raised => Error(500, InternalError)
        case Ok(content) =>
          match ExtractTextFromFile(content, extension, parse, isWord)
          case Refused(d) => Error(400, d)
          case Extracted(text) =>
            if Strip(text) == [] then Error(400, NoText)
            else Finish(cardTypes, Translated(generate(text, "en", level), language, translate))
  }

  /** The English content, translated when another language was asked for. */
  function Translated(english: Outcome<Value>, language: string, translate: (Value, string) -> Outcome<Value>): Outcome<Value> {
    match english
    case Raised => Raised
    case Ok(v) => if language != "en" then translate(v, language) else Ok(v)
  }

  /** `process_file`, with the dict filled by `Assemble`. */
  method ProcessFile(filename: string, language: string, cardTypes: seq<string>, difficulty: string,
                     read: Outcome<seq<bv8>>, parse: (string, seq<bv8>) -> Option<string>, isWord: char -> bool,
                     generate: (string, string, string) -> Outcome<Value>,
                     translate: (Value, string) -> Outcome<Value>) returns (r: Response)
    ensures r == Respond(filename, language, cardTypes, difficulty, read, parse, isWord, generate, translate)
  {
    RespondSpec(filename, language, cardTypes, difficulty, read, parse, isWord, generate, translate);
    if !ValidateLanguage(language) {
      return Error(400, UnsupportedLanguage);
    }
    var level := ValidateDifficulty(difficulty);
    var extension := Extension(filename);
    if !ValidateFileType(extension) {
      return Error(400, UnsupportedFileType);
    }
    if read.Raised? {
      return Error(500, InternalError);
    }
    var extracted := ExtractTextFromFile(read.value, extension, parse, isWord);
    if extracted.Refused? {
      return Error(400, extracted.detail);
    }
    var text := extracted.text;
    if Strip(text) == [] {
      return Error(400, NoText);
    }
    r := GenerateAndAssemble(text, language, cardTypes, level, generate, translate);
  }

  /**
   * The rest of `process_file` once the text is known: generate in English,
   * translate unless English was asked for, and gather the requested lists.
   */
  method GenerateAndAssemble(text: string, language: string, cardTypes: seq<string>, level: string,
                             generate: (string, string, string) -> Outcome<Value>,
                             translate: (Value, string) -> Outcome<Value>) returns (r: Response)
    ensures r == Finish(cardTypes, Translated(generate(text, "en", level), language, translate))
  {
    ghost var generated := Translated(generate(text, "en", level), language, translate);
    var english := generate(text, "en", level);
    if english.Raised? {
      assert generated == Raised;
      return Error(500, InternalError);
    }
    var all := english.value;
    if language != "en" {
      var translated := translate(all, language);
      if translated.Raised? {
        assert generated == Raised;
        return Error(500, InternalError);
      }
      all := translated.value;
    }
    assert generated == Ok(all);
    var assembled := Assemble(cardTypes, all);
    if assembled.Raised? {
      return Error(500, InternalError);
    }
    if assembled.value.total == 0 {
      return Error(422, NoContent);
    }
    return Content(Obj(assembled.value.fields));
  }

  /**
   * A successful response holds at least one item, each field a non-empty
   * list under a key whose kind was asked for; the only errors here are
   * 422 (nothing generated) and 500.
   */
  lemma FinishSpec(cardTypes: seq<string>, generated: Outcome<Value>)
    ensures Finish(cardTypes, generated).Content? ==>
      var v := Finish(cardTypes, generated).generatedContent;
      v.Obj? && ItemCount(v.fields) > 0
      && forall i :: 0 <= i < |v.fields| ==> KindOf(v.fields[i].0) in cardTypes && Length(v.fields[i].1) > 0
    ensures Finish(cardTypes, generated).Error? ==>
      Finish(cardTypes, generated).status in {422, 500}
      && (Finish(cardTypes, generated).status == 422 <==> Finish(cardTypes, generated).detail == NoContent)
    ensures generated.Ok? && Assembled(cardTypes, generated.value).Ok? ==>
      (Finish(cardTypes, generated) == Error(422, NoContent) <==> Assembled(cardTypes, generated.value).value.total == 0)
    ensures generated.Raised? || Assembled(cardTypes, generated.value).Raised? ==>
      Finish(cardTypes, generated) == Error(500, InternalError)
  {
    if generated.Ok? && Assembled(cardTypes, generated.value).Ok? {
      AssembledSpec(cardTypes, generated.value);
      if generated.value.Obj? {
        AssembledKinds(cardTypes, generated.value);
      }
    }
  }

  /** Every assembled list sits under a requested kind and is non-empty. */
  lemma AssembledKinds(cardTypes: seq<string>, all: Value)
    requires all.Obj? && Assembled(cardTypes, all).Ok?
    ensures var fields := Assembled(cardTypes, all).value.fields;
            forall i :: 0 <= i < |fields| ==> KindOf(fields[i].0) in cardTypes && Length(fields[i].1) > 0
  {
    AssembledSpec(cardTypes, all);
    var fields := Assembled(cardTypes, all).value.fields;
    forall i | 0 <= i < |fields|
      ensures KindOf(fields[i].0) in cardTypes && Length(fields[i].1) > 0
    {
      assert HasKey(fields, fields[i].0);
    }
  }

  /**
   * The request checks come first and in this order: an unsupported
   * language, then an unsupported file type, are refused with 400 before
   * the upload is read; a failed read is 500; a document that cannot be
   * parsed is 400 "Error processing <KIND> file"; a blank text is 400; from
   * then on the response is that of the generated content.
   */
  lemma RespondSpec(filename: string, language: string, cardTypes: seq<string>, difficulty: string,
                    read: Outcome<seq<bv8>>, parse: (string, seq<bv8>) -> Option<string>, isWord: char -> bool,
                    generate: (string, string, string) -> Outcome<Value>,
                    translate: (Value, string) -> Outcome<Value>)
    ensures !ValidateLanguage(language) ==>
      Respond(filename, language, cardTypes, difficulty, read, parse, isWord, generate, translate) == Error(400, UnsupportedLanguage)
    ensures ValidateLanguage(language) && !ValidateFileType(Extension(filename)) ==>
      Respond(filename, language, cardTypes, difficulty, read, parse, isWord, generate, translate) == Error(400, UnsupportedFileType)
    ensures ValidateLanguage(language) && ValidateFileType(Extension(filename)) && read.Raised? ==>
      Respond(filename, language, cardTypes, difficulty, read, parse, isWord, generate, translate) == Error(500, InternalError)
    ensures (ValidateLanguage(language) && ValidateFileType(Extension(filename)) && read.Ok?
             && parse(Lower(Extension(filename)), read.value).None?) ==>
      Lower(Extension(filename)) in ExtractableKinds
      && Respond(filename, language, cardTypes, difficulty, read, parse, isWord, generate, translate)
         == Error(400, ProcessingFailed(KindName(Lower(Extension(filename)))))
    ensures (ValidateLanguage(language) && ValidateFileType(Extension(filename)) && read.Ok?
             && parse(Lower(Extension(filename)), read.value).Some?) ==>
      var text := Cleaning.UtilsCleanText(parse(Lower(Extension(filename)), read.value).value, isWord);
      Respond(filename, language, cardTypes, difficulty, read, parse, isWord, generate, translate)
        == if Strip(text) == [] then Error(400, NoText)
           else Finish(cardTypes, Translated(generate(text, "en", ValidateDifficulty(difficulty)), language, translate))
  {
  }

  /** A successful response holds at least one item, only under keys whose kind was asked for. */
  lemma RespondContent(filename: string, language: string, cardTypes: seq<string>, difficulty: string,
                       read: Outcome<seq<bv8>>, parse: (string, seq<bv8>) -> Option<string>, isWord: char -> bool,
                       generate: (string, string, string) -> Outcome<Value>,
                       translate: (Value, string) -> Outcome<Value>)
    requires Respond(filename, language, cardTypes, difficulty, read, parse, isWord, generate, translate).Content?
    ensures var v := Respond(filename, language, cardTypes, difficulty, read, parse, isWord, generate, translate).generatedContent;
      v.Obj? && ItemCount(v.fields) > 0
      && forall i :: 0 <= i < |v.fields| ==> KindOf(v.fields[i].0) in cardTypes && Length(v.fields[i].1) > 0
  {
    var text := ExtractTextFromFile(read.value, Extension(filename), parse, isWord).text;
    FinishSpec(cardTypes, Translated(generate(text, "en", ValidateDifficulty(difficulty)), language, translate));
  }

  /**
   * The difficulty only matters through `validate_difficulty`: two levels
   * that normalise alike give the same response.
   */
  lemma RespondNormalisesDifficulty(filename: string, language: string, cardTypes: seq<string>, d1: string, d2: string,
                                    read: Outcome<seq<bv8>>, parse: (string, seq<bv8>) -> Option<string>, isWord: char -> bool,
                                    generate: (string, string, string) -> Outcome<Value>,
                                    translate: (Value, string) -> Outcome<Value>)
    requires ValidateDifficulty(d1) == ValidateDifficulty(d2)
    ensures Respond(filename, language, cardTypes, d1, read, parse, isWord, generate, translate)
         == Respond(filename, language, cardTypes, d2, read, parse, isWord, generate, translate)
  {
  }

  /** English content is never translated. */
  lemma RespondEnglishUntranslated(filename: string, cardTypes: seq<string>, difficulty: string,
                                   read: Outcome<seq<bv8>>, parse: (string, seq<bv8>) -> Option<string>, isWord: char -> bool,
                                   generate: (string, string, string) -> Outcome<Value>,
                                   t1: (Value, string) -> Outcome<Value>, t2: (Value, string) -> Outcome<Value>)
    ensures Respond(filename, "en", cardTypes, difficulty, read, parse, isWord, generate, t1)
         == Respond(filename, "en", cardTypes, difficulty, read, parse, isWord, generate, t2)
  {
  }
}
