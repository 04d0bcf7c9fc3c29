/**
 * app/create/page.tsx: the rules of the puzzle-creation form.
 *
 * The bounded list of accepted answers, the 5 MB image gate, answer cleaning, the
 * document written for a new puzzle, the share and QR URLs, and the 32-character QR
 * token. Uploading, Firestore writes and rendering are not modelled: the download URL
 * of the uploaded image, the new document's id and the page origin are inputs.
 *
 * `String.prototype.trim` removes a fixed set of whitespace characters; that set is the
 * parameter `isSpace`. `Math.random` is replaced by the indices it would have chosen.
 */
module CreatePage {
  import opened Wrappers
  import Seqs

  const MaxAnswers: nat := 10
  const MaxFileSizeBytes: nat := 5 * 1024 * 1024
  const TokenLength: nat := 32
  const UpperCase: string := "ABCDEFGHIJKLMNOPQRSTUVWXYZ"
  const LowerCase: string := "abcdefghijklmnopqrstuvwxyz"
  const DecimalDigits: string := "0123456789"
  /** generateToken's `chars`. */
  const TokenAlphabet: string := UpperCase + LowerCase + DecimalDigits
  const ImageTooLargeMessage: string := "画像は5MB以下にしてください。"
  const AnonymousName: string := "匿名"

  // ---------------------------------------------------------------------------
  // generateToken

  predicate IsAlphanumeric(c: char)
  {
    'A' <= c <= 'Z' || 'a' <= c <= 'z' || '0' <= c <= '9'
  }

  /** A text of letters and digits only. */
  predicate AlphanumericText(s: string)
  {
    forall i :: 0 <= i < |s| ==> IsAlphanumeric(s[i])
  }

  /** The alphabet has 62 characters, each a letter or a digit. */
  lemma TokenAlphabetShape()
    ensures |TokenAlphabet| == 62
    ensures forall i :: 0 <= i < |TokenAlphabet| ==> IsAlphanumeric(TokenAlphabet[i])
  {
    assert forall i :: 0 <= i < |UpperCase| ==> 'A' <= UpperCase[i] <= 'Z';
    assert forall i :: 0 <= i < |LowerCase| ==> 'a' <= LowerCase[i] <= 'z';
    assert forall i :: 0 <= i < |DecimalDigits| ==> '0' <= DecimalDigits[i] <= '9';
  }

  /**
   * generateToken: 32 characters, the i-th being the alphabet character at the i-th
   * index `Math.floor(Math.random() * 62)` chose (so always in 0..61).
   */
  method GenerateToken(draws: seq<int>) returns (token: string)
    requires |draws| == TokenLength
    requires forall i :: 0 <= i < |draws| ==> 0 <= draws[i] < |TokenAlphabet|
    ensures |token| == TokenLength
    ensures forall i :: 0 <= i < TokenLength ==> token[i] == TokenAlphabet[draws[i]]
    ensures forall i :: 0 <= i < |token| ==> IsAlphanumeric(token[i])
  {
    TokenAlphabetShape();
    token := "";
    for i := 0 to TokenLength
      invariant |token| == i
      invariant forall j :: 0 <= j < i ==> token[j] == TokenAlphabet[draws[j]]
      invariant forall j :: 0 <= j < i ==> IsAlphanumeric(token[j])
    {
      token := token + [TokenAlphabet[draws[i]]];
    }
  }

  // ---------------------------------------------------------------------------
  // The answer list: updateAnswer, addAnswer, removeAnswer

  /** `prev.map((a, i) => (i === index ? value : a))` */
  function UpdatedAnswers(answers: seq<string>, index: int, value: string): (r: seq<string>)
    ensures |r| == |answers|
    ensures 0 <= index < |answers| ==> r[index] == value
    ensures forall i :: 0 <= i < |answers| && i != index ==> r[i] == answers[i]
  {
    if 0 <= index < |answers| then answers[index := value] else answers
  }

  /**
   * addAnswer: one more empty answer while there are fewer than ten, otherwise nothing.
   * The existing answers are kept as they are, and a list within the bound stays within it.
   */
  function AddedAnswer(answers: seq<string>): (r: seq<string>)
    ensures |answers| <= |r| <= |answers| + 1 && r[..|answers|] == answers
    ensures |r| == |answers| + 1 <==> |answers| < MaxAnswers
    ensures |r| > |answers| ==> r[|answers|] == ""
    ensures |answers| <= MaxAnswers ==> |r| <= MaxAnswers
  {
    if |answers| < MaxAnswers then answers + [""] else answers
  }

  /** `prev.filter((_, i) => i !== index)` */
  function WithoutIndex(answers: seq<string>, index: int): (r: seq<string>)
  {
    if answers == [] then []
    else WithoutIndex(answers[..|answers| - 1], index) + (if |answers| - 1 == index then [] else [answers[|answers| - 1]])
  }

  /** Dropping by index removes exactly the element at `index`, or nothing when no element is there. */
  lemma {:induction false} WithoutIndexIsSlice(answers: seq<string>, index: int)
    ensures 0 <= index < |answers| ==> WithoutIndex(answers, index) == answers[..index] + answers[index + 1..]
    ensures !(0 <= index < |answers|) ==> WithoutIndex(answers, index) == answers
  {
    if answers != [] {
      var init := answers[..|answers| - 1];
      WithoutIndexIsSlice(init, index);
      if index == |answers| - 1 {
        assert answers[..index] == init;
      } else if 0 <= index < |answers| - 1 {
        assert init[..index] == answers[..index];
        assert init[index + 1..] + [answers[|answers| - 1]] == answers[index + 1..];
      } else {
        assert init + [answers[|answers| - 1]] == answers;
      }
    }
  }

  /** removeAnswer: nothing when one answer is left, otherwise the answer at `index` is dropped. */
  function RemovedAnswer(answers: seq<string>, index: int): (r: seq<string>)
  {
    if |answers| <= 1 then answers else WithoutIndex(answers, index)
  }

  /** The editor's list always holds between one and ten answers. */
  predicate AnswerListBounded(answers: seq<string>)
  {
    1 <= |answers| <= MaxAnswers
  }

  /**
   * The three edits keep the list between one and ten answers: update keeps the length,
   * add stops at ten, and remove never drops the last answer.
   */
  lemma {:induction false} EditsKeepAnswerListBounded(answers: seq<string>, index: int, value: string)
    requires AnswerListBounded(answers)
    ensures AnswerListBounded(UpdatedAnswers(answers, index, value))
    ensures AnswerListBounded(AddedAnswer(answers))
    ensures AnswerListBounded(RemovedAnswer(answers, index))
    ensures 0 <= index < |answers| && |answers| > 1 ==>
      RemovedAnswer(answers, index) == answers[..index] + answers[index + 1..]
  {
    WithoutIndexIsSlice(answers, index);
  }

  // ---------------------------------------------------------------------------
  // Trimming and cleaning answers

  /** How many whitespace characters `trim` drops from the front. */
  function LeadingSpace(s: string, isSpace: char -> bool): (n: nat)
    ensures n <= |s|
    ensures forall k :: 0 <= k < n ==> isSpace(s[k])
    ensures n < |s| ==> !isSpace(s[n])
  {
    if s != [] && isSpace(s[0]) then 1 + LeadingSpace(s[1..], isSpace) else 0
  }

  /** Where the whitespace `trim` drops from the back begins. */
  function TrailingSpaceStart(s: string, isSpace: char -> bool): (n: nat)
    ensures n <= |s|
    ensures forall k :: n <= k < |s| ==> isSpace(s[k])
    ensures n > 0 ==> !isSpace(s[n - 1])
  {
    if s != [] && isSpace(s[|s| - 1]) then TrailingSpaceStart(s[..|s| - 1], isSpace) else |s|
  }

  /** `trim`: leading whitespace dropped, then trailing whitespace. */
  function Trim(s: string, isSpace: char -> bool): string
  {
    var a := s[LeadingSpace(s, isSpace)..];
    a[..TrailingSpaceStart(a, isSpace)]
  }

  /**
   * trim gives a contiguous part of the string, everything outside it is whitespace,
   * and it neither starts nor ends with whitespace; it is empty exactly for blank text.
   */
  lemma {:induction false} TrimSpec(s: string, isSpace: char -> bool)
    ensures exists i, j :: (0 <= i <= j <= |s| && Trim(s, isSpace) == s[i..j]
      && (forall k :: 0 <= k < i ==> isSpace(s[k])) && (forall k :: j <= k < |s| ==> isSpace(s[k])))
    ensures var t := Trim(s, isSpace); t == [] || (!isSpace(t[0]) && !isSpace(t[|t| - 1]))
    ensures Trim(s, isSpace) == [] <==> forall k :: 0 <= k < |s| ==> isSpace(s[k])
  {
    var i, j := TrimBounds(s, isSpace);
    TrimBlank(s, isSpace);
  }

  /** Where trim cuts the text: everything before `i` and from `j` on is whitespace. */
  lemma {:induction false} TrimBounds(s: string, isSpace: char -> bool) returns (i: nat, j: nat)
    ensures i <= j <= |s| && Trim(s, isSpace) == s[i..j]
    ensures forall k :: 0 <= k < i ==> isSpace(s[k])
    ensures forall k :: j <= k < |s| ==> isSpace(s[k])
    ensures var t := Trim(s, isSpace); t == [] || (!isSpace(t[0]) && !isSpace(t[|t| - 1]))
  {
    i := LeadingSpace(s, isSpace);
    var a := s[i..];
    var m := TrailingSpaceStart(a, isSpace);
    j := i + m;
    assert Trim(s, isSpace) == s[i..j];
    forall k | j <= k < |s| ensures isSpace(s[k]) {
      assert s[k] == a[k - i];
    }
    if m > 0 {
      assert Trim(s, isSpace)[0] == s[i];
      assert Trim(s, isSpace)[m - 1] == a[m - 1];
    }
  }

  /** Trim is empty exactly for text made only of whitespace. */
  lemma {:induction false} TrimBlank(s: string, isSpace: char -> bool)
    ensures Trim(s, isSpace) == [] <==> forall k :: 0 <= k < |s| ==> isSpace(s[k])
  {
    var i := LeadingSpace(s, isSpace);
    var a := s[i..];
    var m := TrailingSpaceStart(a, isSpace);
    if forall k :: 0 <= k < |s| ==> isSpace(s[k]) {
      assert i == |s|;
    } else {
      var k :| 0 <= k < |s| && !isSpace(s[k]);
      assert a[k - i] == s[k];
      assert k - i < m;
    }
  }

  /** `answers.map((a) => a.trim())` */
  function TrimAll(answers: seq<string>, isSpace: char -> bool): (r: seq<string>)
    ensures |r| == |answers|
    ensures forall i :: 0 <= i < |answers| ==> r[i] == Trim(answers[i], isSpace)
  {
    if answers == [] then []
    else TrimAll(answers[..|answers| - 1], isSpace) + [Trim(answers[|answers| - 1], isSpace)]
  }

  /** `answers.map((a) => a.trim()).filter(Boolean)`: the empty string is the only falsy string. */
  function CleanAnswers(answers: seq<string>, isSpace: char -> bool): seq<string>
  {
    Seqs.Filter(TrimAll(answers, isSpace), (a: string) => a != "")
  }

  lemma {:induction false} TrimAllConcat(a: seq<string>, b: seq<string>, isSpace: char -> bool)
    ensures TrimAll(a + b, isSpace) == TrimAll(a, isSpace) + TrimAll(b, isSpace)
  {
    var l := TrimAll(a + b, isSpace);
    var r := TrimAll(a, isSpace) + TrimAll(b, isSpace);
    assert |l| == |r|;
    forall i | 0 <= i < |l| ensures l[i] == r[i] {
      if i < |a| {
        calc {
          l[i];
          Trim((a + b)[i], isSpace);
          { assert (a + b)[i] == a[i]; }
          Trim(a[i], isSpace);
          TrimAll(a, isSpace)[i];
        }
      } else {
        calc {
          l[i];
          Trim((a + b)[i], isSpace);
          { assert (a + b)[i] == b[i - |a|]; }
          Trim(b[i - |a|], isSpace);
          TrimAll(b, isSpace)[i - |a|];
        }
      }
    }
  }

  /**
   * Cleaning is trimming each answer and dropping the blank ones, in their original
   * order: it works answer by answer, and what it keeps is never blank.
   */
  lemma {:induction false} CleanAnswersByAnswer(a: seq<string>, b: seq<string>, x: string, isSpace: char -> bool)
    ensures CleanAnswers(a + b, isSpace) == CleanAnswers(a, isSpace) + CleanAnswers(b, isSpace)
    ensures CleanAnswers([x], isSpace) == if Trim(x, isSpace) == "" then [] else [Trim(x, isSpace)]
    ensures forall i :: 0 <= i < |CleanAnswers(a, isSpace)| ==> CleanAnswers(a, isSpace)[i] != ""
  {
    TrimAllConcat(a, b, isSpace);
    Seqs.FilterConcat(TrimAll(a, isSpace), TrimAll(b, isSpace), (s: string) => s != "");
    CleanOne(x, isSpace);
  }

  lemma {:induction false} CleanOne(x: string, isSpace: char -> bool)
    ensures CleanAnswers([x], isSpace) == if Trim(x, isSpace) == "" then [] else [Trim(x, isSpace)]
  {
    var t := TrimAll([x], isSpace);
    assert t == [Trim(x, isSpace)];
    assert t[..0] == [];
    assert Seqs.Filter(t[..0], (a: string) => a != "") == [];
  }

  datatype AnswerType = Keyword | QrCode

  /** hasValidAnswers: a QR puzzle always, a keyword puzzle when some answer is not blank. */
  predicate HasValidAnswers(answerType: AnswerType, answers: seq<string>, isSpace: char -> bool)
  {
    answerType == QrCode || exists i :: 0 <= i < |answers| && |Trim(answers[i], isSpace)| > 0
  }

  /**
   * The submit button's condition agrees with the submit handler's check: a keyword
   * puzzle has a valid answer exactly when cleaning leaves at least one answer.
   */
  lemma {:induction false} HasValidAnswersIffCleaned(answers: seq<string>, isSpace: char -> bool)
    ensures HasValidAnswers(Keyword, answers, isSpace) <==> CleanAnswers(answers, isSpace) != []
  {
    var t := TrimAll(answers, isSpace);
    var keep := (s: string) => s != "";
    if HasValidAnswers(Keyword, answers, isSpace) {
      var i :| 0 <= i < |answers| && |Trim(answers[i], isSpace)| > 0;
      assert keep(t[i]);
    }
    if CleanAnswers(answers, isSpace) != [] {
      var c := CleanAnswers(answers, isSpace);
      assert c[0] in t;
    }
  }

  // ---------------------------------------------------------------------------
  // The new puzzle document

  /** The fields handleSubmit writes to the "puzzles" collection (`createdAt` is the server's clock). */
  datatype PuzzleDoc = PuzzleDoc(
    title: string, description: string, location: string, imageUrl: string,
    answerType: AnswerType, answer: string, answers: seq<string>,
    creatorId: string, creatorName: string,
    solved: bool, solvedBy: Option<string>, solvedByUid: Option<string>, solvedAt: Option<int>)

  /** The form as handleSubmit reads it. */
  datatype Form = Form(
    title: string, description: string, location: string, hasImage: bool,
    answerType: AnswerType, answers: seq<string>, qrToken: string)

  /**
   * `user.displayName || "匿名"`: a missing or empty display name falls back to "匿名".
   * The moderator screen applies the same rule to user documents.
   */
  function CreatorName(displayName: Option<string>): (r: string)
    ensures r != ""
    ensures displayName.Some? && displayName.value != "" ==> r == displayName.value
    ensures displayName.None? || displayName.value == "" ==> r == AnonymousName
  {
    if displayName.Some? && displayName.value != "" then displayName.value else AnonymousName
  }

  /** The accepted answers stored: the cleaned answers for a keyword puzzle, the QR token for a QR puzzle. */
  function StoredAnswers(answerType: AnswerType, cleaned: seq<string>, qrToken: string): seq<string>
  {
    if answerType == Keyword then cleaned else [qrToken]
  }

  /**
   * handleSubmit's guards and document: nothing is written without an image, with a
   * blank title, or for a keyword puzzle without a non-blank answer. Otherwise the
   * document stores the trimmed texts, the stored answers with `answer` their first
   * element, and starts unsolved with no solver and no solve time.
   */
  function NewPuzzleDoc(form: Form, imageUrl: string, creatorId: string, displayName: Option<string>,
                        isSpace: char -> bool): (r: Option<PuzzleDoc>)
    ensures r.Some? <==> form.hasImage && Trim(form.title, isSpace) != ""
                         && (form.answerType == QrCode || CleanAnswers(form.answers, isSpace) != [])
    ensures r.Some? ==> r.value.answers != [] && r.value.answer == r.value.answers[0]
    ensures r.Some? && form.answerType == QrCode ==> r.value.answers == [form.qrToken]
    ensures r.Some? && form.answerType == Keyword ==> r.value.answers == CleanAnswers(form.answers, isSpace)
    ensures r.Some? ==> !r.value.solved && r.value.solvedBy.None? && r.value.solvedByUid.None? && r.value.solvedAt.None?
    ensures r.Some? ==> r.value.title == Trim(form.title, isSpace) && r.value.answerType == form.answerType
    ensures r.Some? ==> r.value.description == Trim(form.description, isSpace)
                        && r.value.location == Trim(form.location, isSpace) && r.value.imageUrl == imageUrl
                        && r.value.creatorId == creatorId && r.value.creatorName == CreatorName(displayName)
  {
    if !form.hasImage || Trim(form.title, isSpace) == "" then None
    else
      var cleaned := CleanAnswers(form.answers, isSpace);
      if form.answerType == Keyword && |cleaned| == 0 then None
      else
        var stored := StoredAnswers(form.answerType, cleaned, form.qrToken);
        Some(PuzzleDoc(
          Trim(form.title, isSpace), Trim(form.description, isSpace), Trim(form.location, isSpace), imageUrl,
          form.answerType, stored[0], stored, creatorId, CreatorName(displayName),
          false, None, None, None))
  }

  /** Every answer stored for a keyword puzzle is trimmed and non-blank. */
  lemma {:induction false} StoredKeywordAnswersClean(form: Form, imageUrl: string, creatorId: string, displayName: Option<string>,
                                  isSpace: char -> bool)
    ensures var r := NewPuzzleDoc(form, imageUrl, creatorId, displayName, isSpace);
      form.answerType == Keyword && r.Some? ==>
        forall i :: 0 <= i < |r.value.answers| ==> r.value.answers[i] != "" && r.value.answers[i] == Trim(r.value.answers[i], isSpace)
  {
    CleanAnswersTrimmed(form.answers, isSpace);
  }

  /** What cleaning keeps is non-blank and already trimmed. */
  lemma {:induction false} CleanAnswersTrimmed(answers: seq<string>, isSpace: char -> bool)
    ensures var c := CleanAnswers(answers, isSpace);
      forall i :: 0 <= i < |c| ==> c[i] != "" && c[i] == Trim(c[i], isSpace)
  {
    var c := CleanAnswers(answers, isSpace);
    var t := TrimAll(answers, isSpace);
    forall i | 0 <= i < |c| ensures c[i] != "" && c[i] == Trim(c[i], isSpace) {
      assert c[i] in t;
      var j :| 0 <= j < |t| && t[j] == c[i];
      TrimTwice(answers[j], isSpace);
    }
  }

  /** A trimmed text trims to itself. */
  lemma {:induction false} TrimTwice(s: string, isSpace: char -> bool)
    ensures Trim(Trim(s, isSpace), isSpace) == Trim(s, isSpace)
  {
    var t := Trim(s, isSpace);
    var i, j := TrimBounds(s, isSpace);
    if t != [] {
      assert LeadingSpace(t, isSpace) == 0;
      assert t[0..] == t;
      assert TrailingSpaceStart(t, isSpace) == |t|;
    }
  }

  // ---------------------------------------------------------------------------
  // The size gate of handleImageSelect

  datatype SelectedFile = SelectedFile(name: string, size: nat)

  /** The image part of the form: the selected file and the error shown under it. */
  datatype ImageField = ImageField(file: Option<SelectedFile>, error: Option<string>)

  /** The kept image is at most 5 MB. */
  predicate ImageWithinLimit(field: ImageField)
  {
    field.file.Some? ==> field.file.value.size <= MaxFileSizeBytes
  }

  /**
   * handleImageSelect: no file chosen changes nothing; a file over 5 MB sets the error
   * and is not kept (an earlier selection stays); any other file is kept and clears the error.
   */
  function SelectImage(field: ImageField, chosen: Option<SelectedFile>): (r: ImageField)
    ensures chosen.None? ==> r == field
    ensures r.file == field.file || r.file == chosen
    ensures r.file != field.file ==> chosen.Some? && chosen.value.size <= MaxFileSizeBytes
    ensures chosen.Some? && chosen.value.size <= MaxFileSizeBytes ==> r.file == chosen && r.error.None?
    ensures chosen.Some? && chosen.value.size > MaxFileSizeBytes ==> r.file == field.file && r.error == Some(ImageTooLargeMessage)
    ensures ImageWithinLimit(field) ==> ImageWithinLimit(r)
  {
    match chosen
    case None => field
    case Some(f) =>
      if f.size > MaxFileSizeBytes then ImageField(field.file, Some(ImageTooLargeMessage))
      else ImageField(Some(f), None)
  }

  // ---------------------------------------------------------------------------
  // URLs

  /** The share URL shown after creation. */
  function PuzzleUrl(origin: string, id: string): string
  {
    origin + "/puzzle/" + id
  }

  /**
   * The URL encoded in the QR code: the share URL with the token as its query. For an
   * origin and id without '?' or '#' and an alphanumeric token, the `token` parameter
   * the puzzle page reads from it is that token.
   */
  function QrUrl(origin: string, id: string, token: string): (r: string)
    ensures |PuzzleUrl(origin, id)| < |r| && r[..|PuzzleUrl(origin, id)|] == PuzzleUrl(origin, id)
    ensures Lacks(origin, '?') && Lacks(id, '?') ==> IndexOf(r, '?') == Some(|PuzzleUrl(origin, id)|)
    ensures (Lacks(origin, '?') && Lacks(id, '?') && Lacks(origin, '#') && Lacks(id, '#') && AlphanumericText(token)) ==>
      TokenParam(r) == Some(token)
  {
    var head := PuzzleUrl(origin, id);
    assert Lacks(origin, '?') && Lacks(id, '?') ==> Lacks(head, '?');
    assert Lacks(origin, '#') && Lacks(id, '#') ==> Lacks(head, '#');
    TokenReadBack(head, token);
    assert head + "?token=" + token == head + ("?token=" + token);
    if Lacks(head, '?') then
      IndexOfAfter(head, "?token=" + token, '?');
      head + "?token=" + token
    else head + "?token=" + token
  }

  /**
   * The value given to the QR code on screen: the QR URL once the puzzle exists, the bare
   * token before. Either way the token can be read back from it.
   */
  function QrCodeValue(origin: string, createdId: Option<string>, token: string): (r: string)
    ensures createdId.None? || createdId.value == "" ==> r == token
    ensures createdId.Some? && createdId.value != "" ==> r == QrUrl(origin, createdId.value, token)
    ensures (createdId.Some? && createdId.value != "" && Lacks(origin, '?') && Lacks(origin, '#')
             && Lacks(createdId.value, '?') && Lacks(createdId.value, '#') && AlphanumericText(token)) ==>
      TokenParam(r) == Some(token)
  {
    if createdId.Some? && createdId.value != "" then QrUrl(origin, createdId.value, token) else token
  }

  // Reading the token back, as the puzzle page does with `searchParams.get("token")`
  // (app/puzzle/[id]/page.tsx). Percent-decoding is not modelled.

  /** Position of the first `c` in `s`. */
  function IndexOf(s: string, c: char): (r: Option<nat>)
    ensures r.Some? ==> r.value < |s| && s[r.value] == c && forall i :: 0 <= i < r.value ==> s[i] != c
    ensures r.None? ==> forall i :: 0 <= i < |s| ==> s[i] != c
  {
    if s == [] then None
    else if s[0] == c then Some(0)
    else match IndexOf(s[1..], c)
      case None => None
      case Some(i) => Some(i + 1)
  }

  lemma {:induction false} IndexOfAfter(a: string, b: string, c: char)
    requires Lacks(a, c)
    ensures IndexOf(a + b, c) == match IndexOf(b, c) case None => None case Some(i) => Some(|a| + i)
  {
    if a != [] {
      assert (a + b)[1..] == a[1..] + b;
      IndexOfAfter(a[1..], b, c);
    } else {
      assert a + b == b;
    }
  }

  /** The query of a URL: after the first '?', up to a '#'. */
  function QueryOf(url: string): Option<string>
  {
    match IndexOf(url, '?')
    case None => None
    case Some(q) =>
      var rest := url[q + 1..];
      match IndexOf(rest, '#')
      case None => Some(rest)
      case Some(h) => Some(rest[..h])
  }

  /** The value of the first `name=value` pair of an '&'-separated query whose name is `name`. */
  function ParamValue(query: string, name: string): Option<string>
    decreases |query|
  {
    var seg := match IndexOf(query, '&') case None => query case Some(a) => query[..a];
    var key := match IndexOf(seg, '=') case None => seg case Some(e) => seg[..e];
    var value := match IndexOf(seg, '=') case None => "" case Some(e) => seg[e + 1..];
    if key == name then Some(value)
    else match IndexOf(query, '&')
      case None => None
      case Some(a) => ParamValue(query[a + 1..], name)
  }

  function TokenParam(url: string): Option<string>
  {
    match QueryOf(url)
    case None => None
    case Some(q) => ParamValue(q, "token")
  }

  predicate Lacks(s: string, c: char)
  {
    forall i :: 0 <= i < |s| ==> s[i] != c
  }

  /** A URL whose head has no '?' and whose query has no '#' has exactly that query. */
  lemma {:induction false} QueryOfJoined(head: string, query: string)
    requires Lacks(head, '?') && Lacks(query, '#')
    ensures QueryOf(head + "?" + query) == Some(query)
  {
    var url := head + "?" + query;
    assert url == head + ("?" + query);
    IndexOfAfter(head, "?" + query, '?');
    assert url[|head| + 1..] == query;
  }

  /** A single `name=value` pair gives back its value. */
  lemma {:induction false} ParamValueSingle(name: string, value: string)
    requires Lacks(name, '=') && Lacks(name, '&') && Lacks(value, '&')
    ensures ParamValue(name + "=" + value, name) == Some(value)
  {
    var query := name + "=" + value;
    assert query == name + ("=" + value);
    assert Lacks(query, '&');
    IndexOfAfter(name, "=" + value, '=');
    assert query[..|name|] == name;
    assert query[|name| + 1..] == value;
  }

  /**
   * A token appended as `?token=` to a head without '?' or '#' is the `token` parameter
   * read back, when it is alphanumeric as GenerateToken's tokens are.
   */
  lemma {:induction false} TokenReadBack(head: string, token: string)
    ensures (Lacks(head, '?') && Lacks(head, '#') && AlphanumericText(token)) ==>
      TokenParam(head + "?token=" + token) == Some(token)
  {
    if Lacks(head, '?') && Lacks(head, '#') && AlphanumericText(token) {
      var query := "token" + "=" + token;
      assert head + "?token=" + token == head + "?" + query;
      assert Lacks(query, '#');
      QueryOfJoined(head, query);
      assert Lacks(token, '&');
      ParamValueSingle("token", token);
    }
  }

  // ---------------------------------------------------------------------------
  // The form state

  /**
   * The create form's state that persists between edits: the answer list, the image
   * field, the QR token drawn once when the page mounts, and the id of the puzzle just
   * created. The text inputs and the answer type are read at submit time.
   */
  class CreateForm {
    var answers: seq<string>
    var image: ImageField
    var qrToken: string
    var createdId: Option<string>

    ghost predicate Valid()
      reads this
    {
      AnswerListBounded(answers) && ImageWithinLimit(image) && |qrToken| == TokenLength && AlphanumericText(qrToken)
    }

    /**
     * The initial form: one empty answer, no image, no error, nothing created, and the
     * token `useState(() => generateToken())` draws once.
     */
    constructor (draws: seq<int>)
      requires |draws| == TokenLength
      requires forall i :: 0 <= i < |draws| ==> 0 <= draws[i] < |TokenAlphabet|
      ensures Valid()
      ensures answers == [""] && image == ImageField(None, None) && createdId.None?
      ensures forall i :: 0 <= i < TokenLength ==> qrToken[i] == TokenAlphabet[draws[i]]
    {
      var token := GenerateToken(draws);
      answers := [""];
      image := ImageField(None, None);
      createdId := None;
      qrToken := token;
    }

    method UpdateAnswer(index: int, value: string)
      requires Valid()
      modifies this
      ensures Valid()
      ensures answers == UpdatedAnswers(old(answers), index, value)
      ensures image == old(image) && qrToken == old(qrToken) && createdId == old(createdId)
    {
      EditsKeepAnswerListBounded(answers, index, value);
      answers := UpdatedAnswers(answers, index, value);
    }

    method AddAnswer()
      requires Valid()
      modifies this
      ensures Valid()
      ensures answers == AddedAnswer(old(answers))
      ensures image == old(image) && qrToken == old(qrToken) && createdId == old(createdId)
    {
      EditsKeepAnswerListBounded(answers, 0, "");
      if |answers| < MaxAnswers {
        answers := answers + [""];
      }
    }

    method RemoveAnswer(index: int)
      requires Valid()
      modifies this
      ensures Valid()
      ensures answers == RemovedAnswer(old(answers), index)
      ensures image == old(image) && qrToken == old(qrToken) && createdId == old(createdId)
    {
      EditsKeepAnswerListBounded(answers, index, "");
      if |answers| <= 1 {
        return;
      }
      answers := WithoutIndex(answers, index);
    }

    method HandleImageSelect(chosen: Option<SelectedFile>)
      requires Valid()
      modifies this
      ensures Valid()
      ensures image == SelectImage(old(image), chosen)
      ensures answers == old(answers) && qrToken == old(qrToken) && createdId == old(createdId)
    {
      image := SelectImage(image, chosen);
    }

    /**
     * handleSubmit's document for the current answers and token: the text inputs, the
     * answer type and whether an image is chosen are as the submit reads them. A QR
     * puzzle stores the form's own token, the one its QR code carries.
     */
    function SubmittedDoc(title: string, description: string, location: string, answerType: AnswerType,
                          imageUrl: string, creatorId: string, displayName: Option<string>,
                          isSpace: char -> bool): (r: Option<PuzzleDoc>)
      reads this
      ensures r.Some? ==> image.file.Some?
      ensures r.Some? && answerType == QrCode ==> r.value.answers == [qrToken]
      ensures r.Some? && answerType == Keyword ==> r.value.answers == CleanAnswers(answers, isSpace)
    {
      NewPuzzleDoc(Form(title, description, location, image.file.Some?, answerType, answers, qrToken),
                   imageUrl, creatorId, displayName, isSpace)
    }

    /** A successful submit records the new document's id; nothing else of this state changes. */
    method Created(id: string)
      requires Valid()
      modifies this
      ensures Valid()
      ensures createdId == Some(id)
      ensures answers == old(answers) && image == old(image) && qrToken == old(qrToken)
    {
      createdId := Some(id);
    }

    /** The QR code on screen, from the created id and the token. */
    function QrValue(origin: string): (r: string)
      reads this
      ensures (Valid() && createdId.Some? && createdId.value != "" && Lacks(origin, '?') && Lacks(origin, '#')
               && Lacks(createdId.value, '?') && Lacks(createdId.value, '#')) ==>
        TokenParam(r) == Some(qrToken)
      ensures createdId.None? ==> r == qrToken
    {
      QrCodeValue(origin, createdId, qrToken)
    }

    /**
     * "もう1つ作る": back to one empty answer, no image and nothing created; the image
     * error is not cleared, and the QR token stays the one drawn at mount.
     */
    method Reset()
      modifies this
      requires Valid()
      ensures Valid()
      ensures answers == [""] && image == ImageField(None, old(image.error)) && createdId.None?
      ensures qrToken == old(qrToken)
    {
      answers := [""];
      image := ImageField(None, image.error);
      createdId := None;
    }
  }
}
