/** Assembly of the request sent to the image-generation service and
    extraction of the image from its answer (services/geminiService.ts).
    The network call itself is not part of this model: the answer is an
    input. */
module GeminiService {
  import opened Nullable

  /** Mime type attached to every image part of a request. */
  const PngMime: string := "image/png"

  /** Prefix put back in front of the payload of the returned image: a
      data URL in the `data:[<mediatype>][;base64],<data>` form of
      section 3 of RFC 2397. */
  const PngDataUrlPrefix: string := "data:image/png;base64,"

  /** One element of the request's `parts` list. */
  datatype Part = InlineData(data: string, mimeType: string) | Text(text: string)

  // ---------------------------------------------------------------------
  // String.prototype.split with a one-character separator
  // ---------------------------------------------------------------------

  /** The inverse of `Split`: the pieces glued back with the separator. */
  function Join(pieces: seq<string>, sep: char): string
    requires |pieces| >= 1
  {
    if |pieces| == 1 then pieces[0] else pieces[0] + [sep] + Join(pieces[1..], sep)
  }

  /** `s.split(sep)`: the separator-free pieces of `s`, in order.
      As in JavaScript, the empty string splits into one empty piece and a
      separator at either end yields an empty piece there. */
  function Split(s: string, sep: char): (pieces: seq<string>)
    ensures |pieces| >= 1
    ensures forall k :: 0 <= k < |pieces| ==> sep !in pieces[k]
    ensures Join(pieces, sep) == s
    decreases |s|
  {
    if s == [] then [[]]
    else
      var rest := Split(s[1..], sep);
      assert s == [s[0]] + s[1..];
      if s[0] == sep then
        var pieces := [[]] + rest;
        assert pieces[1..] == rest;
        pieces
      else
        var first := [s[0]] + rest[0];
        var pieces := [first] + rest[1..];
        assert pieces[1..] == rest[1..];
        assert sep !in first;
        assert forall k :: 1 <= k < |pieces| ==> pieces[k] == rest[k];
        assert Join(pieces, sep) == [s[0]] + Join(rest, sep) by {
          if |rest| > 1 {
            assert Join(pieces, sep) == first + [sep] + Join(rest[1..], sep);
            assert Join(rest, sep) == rest[0] + [sep] + Join(rest[1..], sep);
          }
        }
        pieces
  }

  /** A string without the separator splits into itself. */
  lemma {:induction false} SplitNoSeparator(s: string, sep: char)
    requires sep !in s
    ensures Split(s, sep) == [s]
    decreases |s|
  {
    if s != [] {
      SplitNoSeparator(s[1..], sep);
      assert s == [s[0]] + s[1..];
    }
  }

  /** Splitting after a separator-free head: the head is the first piece. */
  lemma {:induction false} SplitAfterHead(head: string, sep: char, rest: string)
    requires sep !in head
    ensures Split(head + [sep] + rest, sep) == [head] + Split(rest, sep)
    decreases |head|
  {
    var s := head + [sep] + rest;
    if head == [] {
      assert s == [sep] + rest && s[1..] == rest;
    } else {
      var tail := head[1..] + [sep] + rest;
      assert s[0] == head[0] && s[1..] == tail;
      SplitAfterHead(head[1..], sep, rest);
      var r := Split(tail, sep);
      assert r == [head[1..]] + Split(rest, sep);
      assert Split(s, sep) == [[head[0]] + r[0]] + r[1..];
      assert [head[0]] + head[1..] == head;
      assert r[1..] == Split(rest, sep);
    }
  }

  /** Split and Join are inverse on separator-free pieces, so `Split` is the
      only decomposition of a string into such pieces. */
  lemma {:induction false} SplitJoin(pieces: seq<string>, sep: char)
    requires |pieces| >= 1
    requires forall k :: 0 <= k < |pieces| ==> sep !in pieces[k]
    ensures Split(Join(pieces, sep), sep) == pieces
    decreases |pieces|
  {
    if |pieces| == 1 {
      SplitNoSeparator(pieces[0], sep);
    } else {
      SplitJoin(pieces[1..], sep);
      SplitAfterHead(pieces[0], sep, Join(pieces[1..], sep));
      assert [pieces[0]] + pieces[1..] == pieces;
    }
  }

  // ---------------------------------------------------------------------
  // Stripping the data-URL prefix: `s.split(',')[1] || s`
  // ---------------------------------------------------------------------

  /** The base64 payload of a data URL, or the whole string when it has no
      non-empty text after its first comma (up to the next comma). */
  function StripPrefix(s: string): (r: string)
    ensures ',' !in s ==> r == s
    ensures r == s || (r != "" && ',' !in r)
  {
    var pieces := Split(s, ',');
    if |pieces| > 1 && pieces[1] != "" then pieces[1] else s
  }

  /** The full behaviour on a string that has a comma: such a string is
      `header + "," + payload + tail` with a comma-free header and payload
      and a tail that is empty or starts with a comma; the payload comes
      out when it is non-empty, the whole string otherwise. */
  lemma {:induction false} StripPrefixSplitsAtFirstComma(header: string, payload: string, tail: string)
    requires ',' !in header && ',' !in payload
    requires tail == [] || tail[0] == ','
    ensures var s := header + [','] + payload + tail;
            StripPrefix(s) == if payload != "" then payload else s
  {
    var s := header + [','] + payload + tail;
    assert s == header + [','] + (payload + tail);
    SplitAfterHead(header, ',', payload + tail);
    if tail == [] {
      assert payload + tail == payload;
      SplitNoSeparator(payload, ',');
    } else {
      assert payload + tail == payload + [','] + tail[1..];
      SplitAfterHead(payload, ',', tail[1..]);
    }
  }

  /** The characters of the base64 alphabet of RFC 4648, with padding. */
  predicate IsBase64Char(c: char)
  {
    ('A' <= c <= 'Z') || ('a' <= c <= 'z') || ('0' <= c <= '9') || c == '+' || c == '/' || c == '='
  }

  predicate IsBase64Text(s: string)
  {
    forall k :: 0 <= k < |s| ==> IsBase64Char(s[k])
  }

  /** Stripping undoes the re-prefixing done to the returned image: a PNG
      data URL with a non-empty base64 payload gives that payload back. */
  lemma StripPrefixOfPngDataUrl(payload: string)
    requires payload != "" && IsBase64Text(payload)
    ensures StripPrefix(PngDataUrlPrefix + payload) == payload
  {
    var header := "data:image/png;base64";
    assert PngDataUrlPrefix == header + [','];
    assert forall k :: 0 <= k < |payload| ==> payload[k] != ',' by {
      forall k | 0 <= k < |payload| ensures payload[k] != ',' {
        assert IsBase64Char(payload[k]);
      }
    }
    assert PngDataUrlPrefix + payload == header + [','] + payload + [];
    StripPrefixSplitsAtFirstComma(header, payload, []);
  }

  // ---------------------------------------------------------------------
  // The instruction template
  // ---------------------------------------------------------------------

  /** Lines 1-6 of the instruction template, up to the sentence about image 4. */
  const TemplateHead: string :=
    "NHIỆM VỤ: GHÉP VẬT THỂ TỪ ẢNH PHỤ VÀO ẢNH NỀN VỚI ĐỘ CHÍNH XÁC CAO.\n"
    + "\n"
    + "DỮ LIỆU ĐẦU VÀO:\n"
    + "- ẢNH 1: Ảnh bối cảnh/nền.\n"
    + "- ẢNH 2: MASK ĐỎ TRÊN NỀN. Xác định VỊ TRÍ và KÍCH THƯỚC vật thể sẽ được đặt vào.\n"
    + "- ẢNH 3: Ảnh chứa vật thể muốn lấy.\n"
  /** The sentence used when a subject mask is sent. */
  const SubjectMaskSentence: string :=
    "- ẢNH 4: " + "MASK ĐỎ TRÊN VẬT THỂ. " + "Chỉ lấy phần nội dung được tô đỏ ở Ảnh 3 để ghép."
  /** The sentence used when no subject mask is sent: the model is asked to segment the subject itself. */
  const AutoSegmentSentence: string :=
    "- Nếu không có Ảnh 4, " + "hãy tự động tách vật thể chính ở Ảnh 3."
  /** From the end of the image-4 sentence up to the opening quote around the user prompt. */
  const TemplateMiddle: string :=
    "\n"
    + "\n"
    + "HƯỚNG DẪN GHÉP:\n"
    + "1. TRÍCH XUẤT: Cắt phần nội dung nằm trong vùng mask đỏ của Ảnh 3 (hoặc vật thể chính).\n"
    + "2. CHÈN: Đặt phần nội dung đó vào ĐÚNG vùng mask đỏ của Ảnh 1.\n"
    + "3. HÒA TRỘN: Điều chỉnh ánh sáng, màu sắc, bóng đổ và phối cảnh của vật thể sao cho tiệp hoàn toàn với Ảnh 1.\n"
    + "4. MÔ TẢ: "
  /** After the closing quote around the user prompt to the end of the template. */
  const TemplateTail: string :=
    ". Thực hiện các điều chỉnh bổ sung dựa trên yêu cầu này.\n"
    + "5. BẢO TOÀN: Tuyệt đối không thay đổi bất kỳ pixel nào nằm ngoài vùng mask đỏ của Ảnh 1.\n"
    + "\n"
    + "KẾT QUẢ: Trả về ảnh đã ghép hoàn chỉnh, mượt mà, không bị bóp méo hình dạng vật thể."
  /** The text part of the request: the fixed template with the sentence
      about image 4 chosen by whether a subject mask is sent, and the
      user's prompt quoted verbatim in instruction 4. */
  function PromptText(prompt: string, hasSubjectMask: bool): string
  {
    TemplateHead + (if hasSubjectMask then SubjectMaskSentence else AutoSegmentSentence)
      + TemplateMiddle + "\"" + prompt + "\"" + TemplateTail
  }

  /** What a prompt text was built from. */
  datatype PromptFields = PromptFields(hasSubjectMask: bool, prompt: string)

  /** Reads a text part back: which sentence was chosen and what the user's
      prompt was. `None` for a text the template cannot have produced. */
  function ParsePrompt(text: string): Option<PromptFields>
  {
    ParseFilled(TemplateHead, SubjectMaskSentence, AutoSegmentSentence, TemplateMiddle, TemplateTail, text)
  }

  /** Reading back a template `head + sentence + middle + "<prompt>" + tail`
      whose sentence is one of two alternatives. */
  function ParseFilled(head: string, withMask: string, withoutMask: string, middle: string,
                       tail: string, text: string): Option<PromptFields>
  {
    var opening1 := head + withMask + middle + "\"";
    var opening2 := head + withoutMask + middle + "\"";
    var closing := "\"" + tail;
    if |text| < |closing| || text[|text| - |closing|..] != closing then None
    else if |opening1| <= |text| - |closing| && text[..|opening1|] == opening1 then
      Some(PromptFields(true, text[|opening1|..|text| - |closing|]))
    else if |opening2| <= |text| - |closing| && text[..|opening2|] == opening2 then
      Some(PromptFields(false, text[|opening2|..|text| - |closing|]))
    else None
  }

  /** Any such template whose two sentences differ at some position is
      read back exactly, whatever the prompt contains. */
  lemma {:induction false} ParseFilledText(head: string, withMask: string, withoutMask: string, middle: string,
                                           tail: string, prompt: string, hasSubjectMask: bool, k: nat)
    requires k < |withMask| && k < |withoutMask| && withMask[k] != withoutMask[k]
    ensures var text := head + (if hasSubjectMask then withMask else withoutMask) + middle + "\"" + prompt + "\"" + tail;
            ParseFilled(head, withMask, withoutMask, middle, tail, text) == Some(PromptFields(hasSubjectMask, prompt))
  {
    var opening1 := head + withMask + middle + "\"";
    var opening2 := head + withoutMask + middle + "\"";
    var closing := "\"" + tail;
    var opening := if hasSubjectMask then opening1 else opening2;
    var text := head + (if hasSubjectMask then withMask else withoutMask) + middle + "\"" + prompt + "\"" + tail;
    assert text == opening + prompt + closing;
    assert text[|text| - |closing|..] == closing;
    assert text[..|opening|] == opening;
    assert text[|opening|..|text| - |closing|] == prompt;
    if !hasSubjectMask && |opening1| <= |text| - |closing| {
      assert opening1[|head| + k] == withMask[k];
      assert text[|head| + k] == withoutMask[k];
      assert text[..|opening1|][|head| + k] != opening1[|head| + k];
    }
  }

  /** The two sentences differ early on (at their third character). */
  lemma SentencesDiffer()
    ensures |SubjectMaskSentence| > 2 && |AutoSegmentSentence| > 2
    ensures SubjectMaskSentence[2] != AutoSegmentSentence[2]
  {
  }

  /** The template is unambiguous: the choice of sentence and the user's
      prompt, whatever it contains, are recovered from the text. */
  lemma ParsePromptText(prompt: string, hasSubjectMask: bool)
    ensures ParsePrompt(PromptText(prompt, hasSubjectMask)) == Some(PromptFields(hasSubjectMask, prompt))
  {
    SentencesDiffer();
    ParseFilledText(TemplateHead, SubjectMaskSentence, AutoSegmentSentence, TemplateMiddle, TemplateTail,
                    prompt, hasSubjectMask, 2);
  }

  // ---------------------------------------------------------------------
  // The request's parts
  // ---------------------------------------------------------------------

  /** An image argument as a request part: its payload, typed as PNG. */
  function ImagePart(image: string): Part
  {
    InlineData(StripPrefix(image), PngMime)
  }

  /** 1 when an optional image argument contributes a part, 0 otherwise. */
  function Present(image: Option<string>): nat
  {
    if IsTruthy(image) then 1 else 0
  }

  /** `if (image) parts.push(...)`: one more part when the optional image
      argument is a non-empty string, none when it is null or empty. */
  function PushIfGiven(parts: seq<Part>, image: Option<string>): (r: seq<Part>)
    ensures |r| == |parts| + Present(image)
    ensures r[..|parts|] == parts
    ensures IsTruthy(image) ==> r[|parts|] == ImagePart(image.value)
  {
    if IsTruthy(image) then parts + [ImagePart(image.value)] else parts
  }

  /** The image parts of a request: background first, then background
      mask, subject and subject mask, each only when given. */
  function ImageParts(original: string, mask: Option<string>,
                      subject: Option<string>, subjectMask: Option<string>): seq<Part>
  {
    PushIfGiven(PushIfGiven(PushIfGiven([ImagePart(original)], mask), subject), subjectMask)
  }

  /** The request's parts: the image parts and the instruction text last. */
  function RequestParts(original: string, prompt: string, mask: Option<string>,
                        subject: Option<string>, subjectMask: Option<string>): seq<Part>
  {
    ImageParts(original, mask, subject, subjectMask) + [Text(PromptText(prompt, IsTruthy(subjectMask)))]
  }

  /** The image parts: one plus one per given optional image, all PNG, the
      first carrying the background's payload and each optional image at
      its own position with exactly its argument's payload, in the order
      background mask, subject, subject mask. */
  lemma ImagePartsShape(original: string, mask: Option<string>,
                        subject: Option<string>, subjectMask: Option<string>)
    ensures var images := ImageParts(original, mask, subject, subjectMask);
            var m := Present(mask);
            var s := Present(subject);
            && |images| == 1 + m + s + Present(subjectMask)
            && images[0] == ImagePart(original)
            && (forall k :: 0 <= k < |images| ==> images[k].InlineData? && images[k].mimeType == PngMime)
            && (IsTruthy(mask) ==> images[1] == ImagePart(mask.value))
            && (IsTruthy(subject) ==> images[1 + m] == ImagePart(subject.value))
            && (IsTruthy(subjectMask) ==> images[1 + m + s] == ImagePart(subjectMask.value))
  {
    var p1 := [ImagePart(original)];
    var p2 := PushIfGiven(p1, mask);
    var p3 := PushIfGiven(p2, subject);
    var images := PushIfGiven(p3, subjectMask);
    PushIfGivenImages(p1, mask);
    PushIfGivenImages(p2, subject);
    PushIfGivenImages(p3, subjectMask);
    assert images[..|p3|] == p3 && p3[..|p2|] == p2 && p2[..1] == p1;
    assert images[0] == p3[0] == p2[0] == p1[0];
    if IsTruthy(mask) {
      assert images[1] == p3[1] == p2[1];
    }
    if IsTruthy(subject) {
      assert images[|p2|] == p3[|p2|];
    }
  }

  /** Appending an optional image keeps every part a PNG image. */
  lemma PushIfGivenImages(parts: seq<Part>, image: Option<string>)
    requires forall k :: 0 <= k < |parts| ==> parts[k].InlineData? && parts[k].mimeType == PngMime
    ensures var r := PushIfGiven(parts, image);
            forall k :: 0 <= k < |r| ==> r[k].InlineData? && r[k].mimeType == PngMime
  {
  }

  /** The request ends with exactly one text part, after the image parts,
      from which the prompt and the choice of sentence can be read back. */
  lemma RequestPartsText(original: string, prompt: string, mask: Option<string>,
                         subject: Option<string>, subjectMask: Option<string>)
    ensures var parts := RequestParts(original, prompt, mask, subject, subjectMask);
            && |parts| == 2 + Present(mask) + Present(subject) + Present(subjectMask)
            && parts[..|parts| - 1] == ImageParts(original, mask, subject, subjectMask)
            && parts[|parts| - 1].Text?
            && ParsePrompt(parts[|parts| - 1].text) == Some(PromptFields(IsTruthy(subjectMask), prompt))
  {
    RequestPartsLayout(original, prompt, mask, subject, subjectMask);
    ParsePromptText(prompt, IsTruthy(subjectMask));
  }

  /** The request is the image parts followed by the text part. */
  lemma RequestPartsLayout(original: string, prompt: string, mask: Option<string>,
                           subject: Option<string>, subjectMask: Option<string>)
    ensures var parts := RequestParts(original, prompt, mask, subject, subjectMask);
            && |parts| == 2 + Present(mask) + Present(subject) + Present(subjectMask)
            && parts[..|parts| - 1] == ImageParts(original, mask, subject, subjectMask)
            && parts[|parts| - 1] == Text(PromptText(prompt, IsTruthy(subjectMask)))
  {
    ImagePartsShape(original, mask, subject, subjectMask);
    AppendLast(ImageParts(original, mask, subject, subjectMask), Text(PromptText(prompt, IsTruthy(subjectMask))));
  }

  /** Appending one element: it is last, and what came before is kept. */
  lemma AppendLast<T>(xs: seq<T>, x: T)
    ensures var r := xs + [x];
            |r| == |xs| + 1 && r[..|xs|] == xs && r[|xs|] == x
  {
  }

  /** Builds the `parts` list of the request by successive appends. */
  method BuildParts(original: string, prompt: string, mask: Option<string>,
                    subject: Option<string>, subjectMask: Option<string>)
    returns (parts: seq<Part>)
    ensures parts == RequestParts(original, prompt, mask, subject, subjectMask)
  {
    parts := [ImagePart(original)];
    if IsTruthy(mask) {
      parts := parts + [ImagePart(mask.value)];
    }
    if IsTruthy(subject) {
      parts := parts + [ImagePart(subject.value)];
    }
    if IsTruthy(subjectMask) {
      parts := parts + [ImagePart(subjectMask.value)];
    }
    var fullPrompt := PromptText(prompt, IsTruthy(subjectMask));
    parts := parts + [Text(fullPrompt)];
  }

  // ---------------------------------------------------------------------
  // The service's answer
  // ---------------------------------------------------------------------

  /** Inline data of a response part; the SDK declares `data` optional. */
  datatype Blob = Blob(data: Option<string>, mimeType: string)
  datatype ResponsePart = ResponsePart(inlineData: Option<Blob>, text: Option<string>)
  datatype Content = Content(parts: Option<seq<ResponsePart>>)
  datatype Candidate = Candidate(content: Option<Content>)
  datatype Response = Response(candidates: Option<seq<Candidate>>)

  /** `response.candidates?.[0]?.content?.parts || []`. */
  function CandidateParts(response: Response): seq<ResponsePart>
  {
    match response.candidates
    case None => []
    case Some(cs) =>
      if |cs| == 0 then []
      else match cs[0].content
        case None => []
        case Some(c) => match c.parts
          case None => []
          case Some(ps) => ps
  }

  /** `${blob.data}` in a template string: the data, or `"undefined"` when
      the part carries inline data without any. */
  function DataText(blob: Blob): string
  {
    match blob.data
    case Some(data) => data
    case None => "undefined"
  }

  /** The first part carrying inline image data, re-prefixed as a PNG data
      URL; `None` when no part carries image data. */
  function FirstImage(parts: seq<ResponsePart>): (r: Option<string>)
    ensures r.None? <==> forall k :: 0 <= k < |parts| ==> parts[k].inlineData.None?
    ensures r.Some? ==> exists k :: 0 <= k < |parts| && parts[k].inlineData.Some?
                          && (forall j :: 0 <= j < k ==> parts[j].inlineData.None?)
                          && r.value == PngDataUrlPrefix + DataText(parts[k].inlineData.value)
  {
    if parts == [] then None
    else if parts[0].inlineData.Some? then Some(PngDataUrlPrefix + DataText(parts[0].inlineData.value))
    else
      var rest := parts[1..];
      var r := FirstImage(rest);
      assert forall k :: 0 <= k < |rest| ==> rest[k] == parts[k + 1];
      if r.Some? then
        var k :| 0 <= k < |rest| && rest[k].inlineData.Some?
                 && (forall j :: 0 <= j < k ==> rest[j].inlineData.None?)
                 && r.value == PngDataUrlPrefix + DataText(rest[k].inlineData.value);
        assert forall j :: 0 <= j < k + 1 ==> parts[j].inlineData.None? by {
          forall j | 0 <= j < k + 1
            ensures parts[j].inlineData.None?
          {
            if j > 0 {
              assert parts[j] == rest[j - 1];
            }
          }
        }
        r
      else r
  }

  /** The loop over the first candidate's parts that returns at the first
      part with inline data. */
  method ExtractImage(response: Response) returns (image: Option<string>)
    ensures image == FirstImage(CandidateParts(response))
  {
    var parts := CandidateParts(response);
    var i := 0;
    while i < |parts|
      invariant 0 <= i <= |parts|
      invariant FirstImage(parts[i..]) == FirstImage(parts)
    {
      assert parts[i..][0] == parts[i] && parts[i..][1..] == parts[i + 1..];
      if parts[i].inlineData.Some? {
        return Some(PngDataUrlPrefix + DataText(parts[i].inlineData.value));
      }
      i := i + 1;
    }
    assert parts[i..] == [];
    return None;
  }

  /** The image returned by the service, when fed back as the background
      of the next edit, is sent with the payload it arrived with: the part
      it came from is the first one with image data, and stripping the
      data URL prefix undoes the re-prefixing. */
  lemma ReturnedImagePayload(parts: seq<ResponsePart>, k: nat, data: string)
    requires k < |parts| && parts[k].inlineData.Some? && parts[k].inlineData.value.data == Some(data)
    requires forall j :: 0 <= j < k ==> parts[j].inlineData.None?
    requires data != "" && IsBase64Text(data)
    ensures FirstImage(parts) == Some(PngDataUrlPrefix + data)
    ensures ImagePart(FirstImage(parts).value) == InlineData(data, PngMime)
  {
    FirstImageAt(parts, k);
    StripPrefixOfPngDataUrl(data);
  }

  /** A first image part without data still yields a data URL: the text
      `undefined` behind the PNG prefix, which the store treats as an image. */
  lemma MissingDataGivesUndefined(parts: seq<ResponsePart>, k: nat)
    requires k < |parts| && parts[k].inlineData.Some? && parts[k].inlineData.value.data.None?
    requires forall j :: 0 <= j < k ==> parts[j].inlineData.None?
    ensures FirstImage(parts) == Some(PngDataUrlPrefix + "undefined")
    ensures IsTruthy(FirstImage(parts))
  {
    FirstImageAt(parts, k);
  }

  /** The image found is the one of the first part carrying image data. */
  lemma {:induction false} FirstImageAt(parts: seq<ResponsePart>, k: nat)
    requires k < |parts| && parts[k].inlineData.Some?
    requires forall j :: 0 <= j < k ==> parts[j].inlineData.None?
    ensures FirstImage(parts) == Some(PngDataUrlPrefix + DataText(parts[k].inlineData.value))
    decreases k
  {
    if k > 0 {
      assert parts[0].inlineData.None?;
      assert parts[1..][k - 1] == parts[k];
      assert forall j :: 0 <= j < k - 1 ==> parts[1..][j] == parts[j + 1];
      FirstImageAt(parts[1..], k - 1);
    }
  }

  // ---------------------------------------------------------------------
  // editImage
  // ---------------------------------------------------------------------

  /** What `generateContent` did with the request: answered it, or
      rejected with an error. */
  datatype CallOutcome = Answered(response: Response) | Failed(error: string)

  /** What `editImage` settles with: a (possibly null) image, or the
      rethrown error. */
  datatype EditOutcome = Returned(image: Option<string>) | Thrown(error: string)

  /** `editImage`: builds the request, sends it (the service's answer is
      the input `call`), and returns the first inline image of the first
      candidate as a PNG data URL, `null` when there is none, or rethrows
      the service's error unchanged. */
  method EditImage(original: string, prompt: string, mask: Option<string>, subject: Option<string>,
                   subjectMask: Option<string>, call: CallOutcome)
    returns (request: seq<Part>, outcome: EditOutcome)
    ensures request == RequestParts(original, prompt, mask, subject, subjectMask)
    ensures outcome.Thrown? <==> call.Failed?
    ensures call.Failed? ==> outcome.error == call.error
    ensures call.Answered? ==> outcome.image == FirstImage(CandidateParts(call.response))
  {
    request := BuildParts(original, prompt, mask, subject, subjectMask);
    match call
    case Failed(error) =>
      outcome := Thrown(error);
    case Answered(response) =>
      var image := ExtractImage(response);
      outcome := Returned(image);
  }
}
