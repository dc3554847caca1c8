/** The city page (src/pages/CityDetailPage.tsx): building a prompt from a
    translated template with a generic fallback, the per-suffix response and
    loading maps that the generate and translate handlers update, the date
    text the event finder puts into its prompt, the bullet-list extraction
    of a section and the rule that decides whether a link section shows.

    The answers of the AI services arrive as parameters: `Some(text)` is a
    resolved call, `None` a call that threw. Each handler runs to completion
    before another starts. */
module CityDetailPage {
  import opened Options
  import opened JsStrings
  import opened I18n
  import opened Trip

  // ---------------------------------------------------------------------
  // Prompts

  /** The parameters every prompt template is filled with. */
  function CityParams(tr: Translator, city: City): Params {
    map["cityName" := tr.T(city.nameKey)]
  }

  /** The generic key a city-specific prompt key falls back to: "generic"
      followed by the key without its first `|city.id|` characters. */
  function GenericPromptKey(basePromptKey: string, city: City): (key: string)
    ensures |city.id| <= |basePromptKey| ==> key == "generic" + basePromptKey[|city.id|..]
    ensures |city.id| >= |basePromptKey| ==> key == "generic"
  {
    "generic" + Substring(basePromptKey, |city.id|)
  }

  /** For a key made of the city's id and a suffix, the generic key is
      "generic" and that suffix. */
  lemma GenericKeyOfCityKey(city: City, suffix: string)
    ensures GenericPromptKey(city.id + suffix, city) == "generic" + suffix
  {
    assert (city.id + suffix)[|city.id|..] == suffix;
  }

  /** `constructFullPrompt`: the template of the city-specific key, or else
      of the generic key, filled with the city's name, then a space and the
      user's input, trimmed. `None` (the source's `null`) when `t` returns
      both keys unchanged. */
  function ConstructFullPrompt(tr: Translator, basePromptKey: string, city: City, userInput: string): (prompt: Option<string>)
    ensures prompt.None? <==>
      tr.TWith(basePromptKey, CityParams(tr, city)) == basePromptKey
      && tr.TWith(GenericPromptKey(basePromptKey, city), CityParams(tr, city)) == GenericPromptKey(basePromptKey, city)
    ensures tr.TWith(basePromptKey, CityParams(tr, city)) != basePromptKey ==>
      prompt == Some(Trim(tr.TWith(basePromptKey, CityParams(tr, city)) + " " + userInput))
  {
    var promptText := tr.TWith(basePromptKey, CityParams(tr, city));
    if promptText == basePromptKey then
      var genericPromptKey := GenericPromptKey(basePromptKey, city);
      var genericText := tr.TWith(genericPromptKey, CityParams(tr, city));
      if genericText == genericPromptKey then None
      else Some(Trim(genericText + " " + userInput))
    else
      Some(Trim(promptText + " " + userInput))
  }

  /** Without a translation of either key there is no prompt. */
  lemma NoTemplateNoPrompt(tr: Translator, basePromptKey: string, city: City, userInput: string)
    requires basePromptKey !in tr.entries && GenericPromptKey(basePromptKey, city) !in tr.entries
    ensures ConstructFullPrompt(tr, basePromptKey, city, userInput) == None
  {
  }

  /** A city without its own template uses the generic template of the same
      suffix, filled with that city's name. */
  lemma GenericTemplateFallback(tr: Translator, city: City, suffix: string, userInput: string)
    requires city.id + suffix !in tr.entries
    requires "generic" + suffix in tr.entries
    requires tr.interpolate(tr.entries["generic" + suffix], CityParams(tr, city)) != "generic" + suffix
    ensures ConstructFullPrompt(tr, city.id + suffix, city, userInput)
      == Some(Trim(tr.interpolate(tr.entries["generic" + suffix], CityParams(tr, city)) + " " + userInput))
  {
    GenericKeyOfCityKey(city, suffix);
  }

  /** With no user input the prompt is the filled template, trimmed. */
  lemma PromptWithoutInput(tr: Translator, basePromptKey: string, city: City)
    requires tr.TWith(basePromptKey, CityParams(tr, city)) != basePromptKey
    ensures ConstructFullPrompt(tr, basePromptKey, city, "") == Some(Trim(tr.TWith(basePromptKey, CityParams(tr, city))))
  {
    var text := tr.TWith(basePromptKey, CityParams(tr, city));
    assert text + " " + "" == text + " ";
    TrimTrailingSpace(text);
  }

  /** One more space at the end changes nothing once trimmed. */
  lemma TrimTrailingSpace(s: string)
    ensures Trim(s + " ") == Trim(s)
  {
    var m := WhitespaceRunEnd(s, 0);
    if m == |s| {
      WhitespaceRunEndAt(s + " ", 0, |s| + 1);
    } else {
      WhitespaceRunEndAt(s + " ", 0, m);
      assert TrimStart(s + " ") == s[m..] + " ";
      assert (s[m..] + " ")[..|s[m..]|] == s[m..];
    }
  }

  // ---------------------------------------------------------------------
  // Responses

  datatype WebSource = WebSource(uri: string, title: string)

  /** One grounding source of a search answer; `web` may be absent. */
  datatype GroundingSource = GroundingSource(web: Option<WebSource>)

  /** `AIResponseType`: the text shown, the language it was asked in, and
      what it was asked with, so that it can be asked again in another
      language. Only the event finder's answers carry sources. */
  datatype AiResponse = AiResponse(
    text: string,
    lang: string,
    originalBasePromptKey: string,
    originalUserInput: string,
    sources: Option<seq<GroundingSource>>)

  /** What the event finder's service answers. */
  datatype EventsReply = EventsReply(text: string, sources: Option<seq<GroundingSource>>)

  /** `aiUserInputs[suffix] || ""`. */
  function UserInputFor(inputs: map<string, string>, suffix: string): (input: string)
    ensures suffix !in inputs ==> input == ""
    ensures suffix in inputs ==> input == inputs[suffix]
  {
    if suffix in inputs then inputs[suffix] else ""
  }

  /** `!fullPrompt`: no prompt, or an empty one. */
  predicate PromptMissing(prompt: Option<string>) {
    prompt.None? || prompt.value == ""
  }

  /** The date text of the event finder's prompt: the first line of the
      city's duration text, without its first "- **Estadía**:" label and the
      whitespace after it, trimmed. */
  function EventDates(durationText: string): string {
    Trim(RemoveFirstMarker(FirstLine(durationText), "- **Estadía**:", false))
  }

  /** A duration text whose first line is the label and the dates gives
      those dates, whatever follows on the next lines. */
  lemma EventDatesOfLabelledLine(gap: string, dates: string, rest: string)
    requires AllWhitespace(gap) && '\n' !in gap
    requires dates != [] && !IsWhitespace(dates[0]) && !IsWhitespace(dates[|dates| - 1])
    requires '\n' !in dates
    ensures EventDates("- **Estadía**:" + gap + dates + "\n" + rest) == dates
  {
    var marker := "- **Estadía**:";
    var line := marker + gap + dates;
    NoLineFeedInLabelledLine(marker, gap, dates);
    assert marker + gap + dates + "\n" + rest == line + ['\n'] + rest;
    FirstLineOf(line, rest);
    LabelRemovedFromLine(marker, gap, dates);
    TrimUnpadded(dates);
  }

  /** The label, the gap and the dates make one line. */
  lemma NoLineFeedInLabelledLine(marker: string, gap: string, dates: string)
    requires '\n' !in marker && '\n' !in gap && '\n' !in dates
    ensures '\n' !in marker + gap + dates
  {
    var line := marker + gap + dates;
    forall k | 0 <= k < |line| ensures line[k] != '\n' {
      if k < |marker| { assert line[k] in marker; }
      else if k < |marker| + |gap| { assert line[k] in gap; }
      else { assert line[k] in dates; }
    }
  }

  /** Removing the label and the whitespace after it leaves the dates. */
  lemma LabelRemovedFromLine(marker: string, gap: string, dates: string)
    requires marker == "- **Estadía**:"
    requires AllWhitespace(gap) && dates != [] && !IsWhitespace(dates[0])
    ensures RemoveFirstMarker(marker + gap + dates, marker, false) == dates
  {
    var line := marker + gap + dates;
    assert LiteralAt(line, marker, false, 0) by {
      assert line[0..|marker|] == marker;
    }
    assert FindLiteral(line, marker, false, 0) == 0;
    assert line[|marker|..|marker| + |gap|] == gap;
    WhitespaceRunEndAt(line, |marker|, |marker| + |gap|);
    assert line[|marker| + |gap|..] == dates;
    assert line[..0] + dates == dates;
  }

  /** The event finder's prompt, in English whatever the page's language. */
  function EventsPrompt(cityName: string, dates: string): string {
    "Find family-friendly events, festivals, or local markets in " + cityName
      + ", Argentina that are happening during these dates: " + dates
      + ". Focus on events that would be interesting for a family with children."
  }

  /** The AI state of the city page. */
  class CityDetailPageState {
    const ctx: AppContext
    const city: City
    var aiResponses: map<string, AiResponse>
    var aiLoadingStates: map<string, bool>
    var aiUserInputs: map<string, string>
    var eventsAiResponse: Option<AiResponse>
    var isEventsAiLoading: bool

    /** The state of a freshly opened city: nothing asked, nothing loading. */
    constructor (ctx: AppContext, city: City)
      ensures this.ctx == ctx && this.city == city
      ensures aiResponses == map[] && aiLoadingStates == map[] && aiUserInputs == map[]
      ensures eventsAiResponse == None && !isEventsAiLoading
    {
      this.ctx := ctx;
      this.city := city;
      aiResponses := map[];
      aiLoadingStates := map[];
      aiUserInputs := map[];
      eventsAiResponse := None;
      isEventsAiLoading := false;
    }

    /** The textarea's `onChange`: only the suffix's input changes. */
    method SetUserInput(suffix: string, value: string)
      modifies this`aiUserInputs
      ensures aiUserInputs == old(aiUserInputs)[suffix := value]
    {
      aiUserInputs := aiUserInputs[suffix := value];
    }

    /** The prompt a generation for `suffix` sends: the template of the
        city's key for that suffix with the user's input for it. */
    function PromptFor(suffix: string, cityForPrompt: City): Option<string>
      reads this`aiUserInputs
    {
      ConstructFullPrompt(ctx.tr, cityForPrompt.id + suffix, cityForPrompt, UserInputFor(aiUserInputs, suffix))
    }

    /** The entry a generation for `suffix` stores, with the given text. */
    function GenerationEntry(suffix: string, cityForPrompt: City, targetLang: string, text: string): (entry: AiResponse)
      reads this`aiUserInputs
      ensures entry.text == text && entry.lang == targetLang && entry.sources.None?
      ensures entry.originalBasePromptKey == cityForPrompt.id + suffix
      ensures entry.originalUserInput == UserInputFor(aiUserInputs, suffix)
    {
      AiResponse(text, targetLang, cityForPrompt.id + suffix, UserInputFor(aiUserInputs, suffix), None)
    }

    /** `handleGenerateAiContent`. `reply` is what `askGemini` answered; it
        is only asked when there is a prompt, and `sent` is that prompt.
        Only the entries of `suffix` change. Without a prompt an error is
        stored and the loading flag is left alone; otherwise the flag ends
        false and the entry holds the answer or the error text. */
    method HandleGenerateAiContent(suffix: string, cityForPrompt: City, targetLang: string, reply: Option<string>)
      returns (sent: Option<string>)
      modifies this`aiResponses, this`aiLoadingStates
      ensures PromptMissing(PromptFor(suffix, cityForPrompt)) ==>
        && sent == None
        && aiLoadingStates == old(aiLoadingStates)
        && aiResponses == old(aiResponses)[suffix := GenerationEntry(suffix, cityForPrompt, targetLang, PromptMissingText(ctx.tr))]
      ensures !PromptMissing(PromptFor(suffix, cityForPrompt)) ==>
        && sent == PromptFor(suffix, cityForPrompt)
        && aiLoadingStates == old(aiLoadingStates)[suffix := false]
        && aiResponses == old(aiResponses)[suffix := GenerationEntry(suffix, cityForPrompt, targetLang, GeneratedText(ctx.tr, reply))]
    {
      var fullPrompt := PromptFor(suffix, cityForPrompt);
      if PromptMissing(fullPrompt) {
        aiResponses := aiResponses[suffix := GenerationEntry(suffix, cityForPrompt, targetLang, PromptMissingText(ctx.tr))];
        return None;
      }
      sent := fullPrompt;
      UpdateTwice(aiLoadingStates, suffix, true, false);
      aiLoadingStates := aiLoadingStates[suffix := true];
      var placeholder := GenerationEntry(suffix, cityForPrompt, targetLang, GeneratingText(ctx.tr));
      var entry := GenerationEntry(suffix, cityForPrompt, targetLang, GeneratedText(ctx.tr, reply));
      UpdateTwice(aiResponses, suffix, placeholder, entry);
      aiResponses := aiResponses[suffix := placeholder];
      aiResponses := aiResponses[suffix := entry];
      aiLoadingStates := aiLoadingStates[suffix := false];
    }

    /** `handleTranslateAiResponse`: asks the stored prompt again in the
        page's language. Nothing happens without a stored response. A
        translated answer replaces the entry in the page's language; a
        failed one keeps the old entry, its language included, with an
        error note after its text. */
    method HandleTranslateAiResponse(suffix: string, cityForPrompt: City, reply: Option<string>)
      returns (sent: Option<string>)
      modifies this`aiResponses, this`aiLoadingStates
      ensures suffix !in old(aiResponses) ==>
        sent == None && aiResponses == old(aiResponses) && aiLoadingStates == old(aiLoadingStates)
      ensures suffix in old(aiResponses) ==>
        var existing := old(aiResponses)[suffix];
        var fullPrompt := ConstructFullPrompt(ctx.tr, existing.originalBasePromptKey, cityForPrompt, existing.originalUserInput);
        && (PromptMissing(fullPrompt) ==>
          && sent == None
          && aiLoadingStates == old(aiLoadingStates)
          && aiResponses == old(aiResponses)[suffix := existing.(
            text := ctx.tr.T("iaError") + " (Original prompt error for translation)", lang := ctx.language)])
        && (!PromptMissing(fullPrompt) ==>
          && sent == fullPrompt
          && aiLoadingStates == old(aiLoadingStates)[suffix := false]
          && aiResponses == old(aiResponses)[suffix := TranslationOutcome(ctx, existing, reply)])
    {
      if suffix !in aiResponses {
        return None;
      }
      var existing := aiResponses[suffix];
      var fullPrompt := ConstructFullPrompt(ctx.tr, existing.originalBasePromptKey, cityForPrompt, existing.originalUserInput);
      if PromptMissing(fullPrompt) {
        aiResponses := aiResponses[suffix := existing.(
          text := ctx.tr.T("iaError") + " (Original prompt error for translation)", lang := ctx.language)];
        return None;
      }
      sent := fullPrompt;
      UpdateTwice(aiLoadingStates, suffix, true, false);
      aiLoadingStates := aiLoadingStates[suffix := true];
      aiResponses := aiResponses[suffix := TranslationOutcome(ctx, existing, reply)];
      aiLoadingStates := aiLoadingStates[suffix := false];
    }

    /** `handleFindEvents`: asks for events during the city's dates (`sent`
        is the prompt) and stores the answer, or the error text when the
        answer is empty or the call failed; loading ends false. */
    method HandleFindEvents(reply: Option<EventsReply>) returns (sent: string)
      modifies this`eventsAiResponse, this`isEventsAiLoading
      ensures sent == EventsPrompt(ctx.tr.T(city.nameKey), EventDates(ctx.tr.T(city.id + "_dates_duration")))
      ensures !isEventsAiLoading
      ensures eventsAiResponse == Some(EventsOutcome(ctx, reply))
    {
      isEventsAiLoading := true;
      eventsAiResponse := None;
      var durationText := ctx.tr.T(city.id + "_dates_duration");
      var dates := EventDates(durationText);
      sent := EventsPrompt(ctx.tr.T(city.nameKey), dates);
      eventsAiResponse := Some(EventsOutcome(ctx, reply));
      isEventsAiLoading := false;
    }
  }

  /** A second update of the same key overrides the first. */
  lemma UpdateTwice<K, V>(m: map<K, V>, key: K, first: V, second: V)
    ensures m[key := first][key := second] == m[key := second]
  {
  }

  /** The error a generation without a prompt stores. */
  function PromptMissingText(tr: Translator): string {
    tr.T("iaError") + " (Prompt missing)"
  }

  /** The note a failed translation appends to the old text. */
  function TranslationFailedNote(tr: Translator): string {
    "\n\n(" + tr.T("iaError") + " - Translation failed)"
  }

  /** The placeholder shown while a generation runs. */
  function GeneratingText(tr: Translator): string {
    tr.T("generating") + "..."
  }

  /** What a generation stores: the answer, or the error text when the
      call failed. */
  function GeneratedText(tr: Translator, reply: Option<string>): (text: string)
    ensures reply.Some? ==> text == reply.value
    ensures reply.None? ==> text == tr.T("iaError")
  {
    match reply
    case Some(responseText) => responseText
    case None => tr.T("iaError")
  }

  /** The entry a translation leaves: the answer in the page's language, or
      the old entry with an error note. */
  function TranslationOutcome(ctx: AppContext, existing: AiResponse, reply: Option<string>): (r: AiResponse)
    ensures reply.Some? ==> r.lang == ctx.language && r.text == reply.value && r.sources.None?
    ensures reply.None? ==>
      && r.lang == existing.lang && r.sources == existing.sources
      && StartsWith(r.text, existing.text) && |r.text| > |existing.text|
    ensures reply.None? ==> r.text == existing.text + TranslationFailedNote(ctx.tr)
    ensures r.originalBasePromptKey == existing.originalBasePromptKey
      && r.originalUserInput == existing.originalUserInput
  {
    match reply
    case Some(translatedText) =>
      AiResponse(translatedText, ctx.language, existing.originalBasePromptKey, existing.originalUserInput, None)
    case None =>
      var note := TranslationFailedNote(ctx.tr);
      assert (existing.text + note)[..|existing.text|] == existing.text;
      existing.(text := existing.text + note)
  }

  /** The event finder's stored answer: never an empty text. */
  function EventsOutcome(ctx: AppContext, reply: Option<EventsReply>): (r: AiResponse)
    ensures r.lang == ctx.language && r.originalBasePromptKey == "" && r.originalUserInput == ""
    ensures reply.Some? && reply.value.text != "" ==> r.text == reply.value.text && r.sources == reply.value.sources
    ensures reply.None? || reply.value.text == "" ==> r.text == ctx.tr.T("ai_event_finder_error")
    ensures reply.Some? ==> r.sources == reply.value.sources
    ensures reply.None? ==> r.sources.None?
  {
    match reply
    case Some(answer) =>
      AiResponse(if answer.text != "" then answer.text else ctx.tr.T("ai_event_finder_error"), ctx.language, "", "", answer.sources)
    case None =>
      AiResponse(ctx.tr.T("ai_event_finder_error"), ctx.language, "", "", None)
  }

  /** A translation that succeeds and then one asked again from its result
      asks with the same prompt: the original key and input survive. */
  lemma TranslationKeepsPrompt(ctx: AppContext, existing: AiResponse, reply1: Option<string>, reply2: Option<string>)
    ensures var once := TranslationOutcome(ctx, existing, reply1);
      var twice := TranslationOutcome(ctx, once, reply2);
      twice.originalBasePromptKey == existing.originalBasePromptKey
      && twice.originalUserInput == existing.originalUserInput
  {
  }

  // ---------------------------------------------------------------------
  // Sections

  /** The body of a section: a bullet list (items before link parsing), the
      gastronomy layout of the raw content, or one paragraph. */
  datatype SectionBody = BulletList(items: seq<string>) | Gastronomy(content: string) | Paragraph(content: string)

  datatype SectionView = SectionView(title: string, icon: string, body: SectionBody)

  /** A line is a bullet when its trimmed form starts with "- ". */
  predicate IsBulletLine(line: string) {
    StartsWith(Trim(line), "- ")
  }

  /** The kept lines, each without its first two characters. */
  function ListItems(lines: seq<string>): (items: seq<string>)
    ensures |items| <= |lines|
  {
    if lines == [] then [] else LineItem(lines[0]) + ListItems(lines[1..])
  }

  /** What one line contributes: its item if it is a bullet line, else nothing. */
  function LineItem(line: string): seq<string> {
    if IsBulletLine(line) then [Substring(line, 2)] else []
  }

  /** Lines without a line feed give items without one: each item is a
      single line. */
  lemma {:induction false} ListItemsSingleLine(lines: seq<string>)
    requires forall k :: 0 <= k < |lines| ==> '\n' !in lines[k]
    ensures forall k :: 0 <= k < |ListItems(lines)| ==> '\n' !in ListItems(lines)[k]
    decreases |lines|
  {
    if lines != [] {
      assert forall k :: 0 <= k < |lines[1..]| ==> lines[1..][k] == lines[k + 1];
      ListItemsSingleLine(lines[1..]);
      if IsBulletLine(lines[0]) {
        var item := Substring(lines[0], 2);
        assert '\n' !in item by {
          if |lines[0]| >= 2 {
            assert item == lines[0][2..];
          }
        }
        var items := ListItems(lines);
        assert items == [item] + ListItems(lines[1..]);
        forall k | 0 <= k < |items| ensures '\n' !in items[k] {
          if k > 0 { assert items[k] == ListItems(lines[1..])[k - 1]; }
        }
      }
    }
  }

  /** The items of lines in a row are the items of the first lines
      followed by those of the rest: each line is kept or dropped on its own. */
  lemma {:induction false} ListItemsAppend(a: seq<string>, b: seq<string>)
    ensures ListItems(a + b) == ListItems(a) + ListItems(b)
    decreases |a|
  {
    if a == [] {
      assert a + b == b;
    } else {
      HeadTailOfAppend(a, b);
      ListItemsAppend(a[1..], b);
      AppendAssoc(LineItem(a[0]), ListItems(a[1..]), ListItems(b));
    }
  }

  /** The head and the tail of a non-empty sequence followed by another. */
  lemma HeadTailOfAppend<T>(a: seq<T>, b: seq<T>)
    requires a != []
    ensures a + b != [] && (a + b)[0] == a[0] && (a + b)[1..] == a[1..] + b
  {
  }

  /** Concatenation regroups freely. */
  lemma AppendAssoc<T>(x: seq<T>, y: seq<T>, z: seq<T>)
    ensures x + y + z == x + (y + z)
  {
  }

  /** A bullet line gives one item: the line without its first two
      characters. */
  lemma BulletLineKept(line: string)
    requires IsBulletLine(line)
    ensures ListItems([line]) == [Substring(line, 2)]
  {
    assert [line][1..] == [];
  }

  /** A line that is not a bullet gives no item, wherever it stands. */
  lemma NonBulletDropped(a: seq<string>, line: string, b: seq<string>)
    requires !IsBulletLine(line)
    ensures ListItems(a + [line] + b) == ListItems(a) + ListItems(b)
  {
    assert [line][1..] == [];
    assert ListItems([line]) == [];
    ListItemsAppend(a + [line], b);
    ListItemsAppend(a, [line]);
  }

  /** Only bullet lines make items: a text without any has no list items. */
  lemma {:induction false} NoBulletsNoItems(lines: seq<string>)
    requires forall k :: 0 <= k < |lines| ==> !IsBulletLine(lines[k])
    ensures ListItems(lines) == []
    decreases |lines|
  {
    if lines != [] {
      assert forall k :: 0 <= k < |lines[1..]| ==> lines[1..][k] == lines[k + 1];
      NoBulletsNoItems(lines[1..]);
    }
  }

  /** `renderSection`: nothing when the content is empty or untranslated;
      a bullet list when the trimmed content starts with "- "; the
      gastronomy layout for that section; otherwise a paragraph. */
  function RenderSection(tr: Translator, titleKeySuffix: string, contentKey: string, iconClass: string): (view: Option<SectionView>)
    ensures view.None? <==> tr.T(contentKey) == "" || tr.T(contentKey) == contentKey
    ensures contentKey !in tr.entries ==> view.None?
    ensures view.Some? && StartsWith(Trim(tr.T(contentKey)), "- ") ==>
      view.value.body == BulletList(ListItems(Split(tr.T(contentKey), '\n')))
  {
    var title := tr.T("section_title_" + titleKeySuffix);
    var content := tr.T(contentKey);
    if content == "" || content == contentKey then None
    else if StartsWith(Trim(content), "- ") then
      Some(SectionView(title, iconClass, BulletList(ListItems(Split(content, '\n')))))
    else if titleKeySuffix == "gastronomy_highlight" then
      Some(SectionView(title, iconClass, Gastronomy(content)))
    else
      Some(SectionView(title, iconClass, Paragraph(content)))
  }

  /** The bullet lines of a list. */
  function Bullets(items: seq<string>): (lines: seq<string>)
    ensures |lines| == |items|
    ensures forall k :: 0 <= k < |items| ==> lines[k] == "- " + items[k]
  {
    if items == [] then [] else ["- " + items[0]] + Bullets(items[1..])
  }

  /** An item that can be written on a bullet line: one line, not empty, not
      ending in whitespace. */
  predicate IsListItem(item: string) {
    item != [] && '\n' !in item && !IsWhitespace(item[|item| - 1])
  }

  /** The bullet line of an item is a bullet line, and its item is read back. */
  lemma BulletLineItem(item: string)
    requires IsListItem(item)
    ensures IsBulletLine("- " + item) && Substring("- " + item, 2) == item
  {
    var line := "- " + item;
    assert line[|line| - 1] == item[|item| - 1];
    TrimUnpadded(line);
    assert line[..2] == "- ";
  }

  /** The lines `- a`, `- b`, ... keep all their items, in order. */
  lemma {:induction false} ListItemsOfBullets(items: seq<string>)
    requires forall k :: 0 <= k < |items| ==> IsListItem(items[k])
    ensures ListItems(Bullets(items)) == items
    decreases |items|
  {
    if items != [] {
      BulletLineItem(items[0]);
      assert Bullets(items)[1..] == Bullets(items[1..]);
      ListItemsOfBullets(items[1..]);
    }
  }

  /** A content written as bullet lines joined by line feeds is shown as the
      list of its items: the list round-trips through its text. */
  lemma BulletContentRoundTrip(items: seq<string>)
    requires items != []
    requires forall k :: 0 <= k < |items| ==> IsListItem(items[k])
    ensures ListItems(Split(Join(Bullets(items), '\n'), '\n')) == items
  {
    BulletLinesSingle(items);
    SplitJoin(Bullets(items), '\n');
    ListItemsOfBullets(items);
  }

  /** Bullet lines of single-line items are single lines. */
  lemma BulletLinesSingle(items: seq<string>)
    requires forall k :: 0 <= k < |items| ==> IsListItem(items[k])
    ensures forall k :: 0 <= k < |items| ==> '\n' !in Bullets(items)[k]
  {
    forall k | 0 <= k < |items| ensures '\n' !in Bullets(items)[k] {
      assert Bullets(items)[k] == "- " + items[k];
    }
  }

  /** An indented bullet keeps its dash: the two characters removed are the
      indentation, not the marker. */
  lemma IndentedBulletKeepsDash(item: string)
    requires IsListItem(item)
    ensures ListItems(["  - " + item]) == ["- " + item]
  {
    var line := "  - " + item;
    var core := "- " + item;
    assert core[|core| - 1] == item[|item| - 1];
    assert line == "  " + core + "";
    TrimPadded("  ", core, "");
    assert core[..2] == "- ";
    assert IsBulletLine(line);
    assert line[2..] == core;
  }

  // ---------------------------------------------------------------------
  // Link sections

  /** A translated text counts when it is non-empty and not the key itself. */
  predicate IsValidText(text: string, key: string) {
    text != "" && text != key
  }

  datatype LinkView = LinkView(url: string, caption: string)

  datatype LinkSectionView = LinkSectionView(title: string, icon: string, mainText: Option<string>, link: Option<LinkView>)

  /** The key of a link section's main text: city id, the title suffix in
      lower case, "_text". */
  function MainTextKey(city: City, titleKeySuffix: string): string {
    city.id + "_" + ToLowerAscii(titleKeySuffix) + "_text"
  }

  /** `renderLinkSection`: nothing when neither the main text nor the URL is
      translated; otherwise the valid parts, the link captioned with its
      text or, when that is untranslated, the "explore" label. */
  function RenderLinkSection(tr: Translator, city: City, titleKeySuffix: string, textKeySuffix: string, urlKeySuffix: string, iconClass: string)
    : (view: Option<LinkSectionView>)
    ensures var mainKey := MainTextKey(city, titleKeySuffix);
      var urlKey := city.id + "_" + urlKeySuffix;
      view.None? <==> !IsValidText(tr.T(mainKey), mainKey) && !IsValidText(tr.T(urlKey), urlKey)
    ensures view.Some? ==>
      var mainKey := MainTextKey(city, titleKeySuffix);
      var urlKey := city.id + "_" + urlKeySuffix;
      var textKey := city.id + "_" + textKeySuffix;
      && (view.value.mainText.Some? <==> IsValidText(tr.T(mainKey), mainKey))
      && (view.value.mainText.Some? ==> view.value.mainText.value == tr.T(mainKey))
      && (view.value.link.Some? <==> IsValidText(tr.T(urlKey), urlKey))
      && (view.value.link.Some? ==> view.value.link.value.url == tr.T(urlKey))
      && (view.value.link.Some? ==>
        view.value.link.value.caption == if IsValidText(tr.T(textKey), textKey) then tr.T(textKey) else tr.T("explore_btn"))
  {
    var title := tr.T("section_title_" + titleKeySuffix);
    var linkText := tr.T(city.id + "_" + textKeySuffix);
    var linkUrl := tr.T(city.id + "_" + urlKeySuffix);
    var mainTextContentKey := MainTextKey(city, titleKeySuffix);
    var mainTextContent := tr.T(mainTextContentKey);
    var isMainTextValid := IsValidText(mainTextContent, mainTextContentKey);
    var isLinkTextValid := IsValidText(linkText, city.id + "_" + textKeySuffix);
    var isLinkUrlValid := IsValidText(linkUrl, city.id + "_" + urlKeySuffix);
    if !isMainTextValid && !isLinkUrlValid then None
    else
      var displayText := if isLinkTextValid then linkText else tr.T("explore_btn");
      Some(LinkSectionView(
        title, iconClass,
        if isMainTextValid then Some(mainTextContent) else None,
        if isLinkUrlValid then Some(LinkView(linkUrl, displayText)) else None))
  }

  /** A city with none of the section's keys translated shows no section. */
  lemma UntranslatedLinkSectionHidden(tr: Translator, city: City, titleKeySuffix: string, textKeySuffix: string, urlKeySuffix: string, iconClass: string)
    requires MainTextKey(city, titleKeySuffix) !in tr.entries
    requires city.id + "_" + urlKeySuffix !in tr.entries
    ensures RenderLinkSection(tr, city, titleKeySuffix, textKeySuffix, urlKeySuffix, iconClass).None?
  {
  }
}
