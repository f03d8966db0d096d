/**
 * The text-transform client of src/services/translation.ts: the persona
 * prompt catalogue, the construction of the chat request, and the mapping of
 * the remote service's answer to a `TranslationResponse`. The HTTP call itself
 * is a parameter: the model receives its outcome.
 */
module Translation {
  import opened Common

  /*** Strings ***/

  /** `t` occurs in `s` starting at index `i`. */
  predicate OccursAt(s: string, t: string, i: int) {
    0 <= i <= |s| - |t| && s[i..i + |t|] == t
  }

  /** `t` occurs in `s` as a contiguous piece. */
  predicate Contains(s: string, t: string) {
    exists i | 0 <= i <= |s| :: OccursAt(s, t, i)
  }

  /** The regular-expression replacement of every asterisk by nothing: every asterisk removed, everything else kept in order. */
  function CleanResponse(s: string): (r: string)
    ensures |r| <= |s|
    ensures '*' !in r
    ensures forall c :: c != '*' ==> multiset(r)[c] == multiset(s)[c]
  {
    if s == [] then []
    else
      assert s == [s[0]] + s[1..];
      if s[0] == '*' then CleanResponse(s[1..])
      else [s[0]] + CleanResponse(s[1..])
  }

  /** The characters JavaScript's `String.prototype.trim` removes: WhiteSpace and LineTerminator. */
  predicate IsJsWhitespace(c: char) {
    c == '\t' || c == '\n' || c == '\U{B}' || c == '\U{C}' || c == '\r' || c == ' '
    || c == '\U{A0}' || c == '\U{1680}' || ('\U{2000}' <= c <= '\U{200A}')
    || c == '\U{2028}' || c == '\U{2029}' || c == '\U{202F}' || c == '\U{205F}'
    || c == '\U{3000}' || c == '\U{FEFF}'
  }

  /** `s` with its leading whitespace removed. */
  function TrimStart(s: string): (r: string)
    ensures |r| <= |s| && r == s[|s| - |r|..]
    ensures forall k :: 0 <= k < |s| - |r| ==> IsJsWhitespace(s[k])
    ensures r == [] || !IsJsWhitespace(r[0])
  {
    if s != [] && IsJsWhitespace(s[0]) then TrimStart(s[1..]) else s
  }

  /** `s` with its trailing whitespace removed. */
  function TrimEnd(s: string): (r: string)
    ensures |r| <= |s| && r == s[..|r|]
    ensures forall k :: |r| <= k < |s| ==> IsJsWhitespace(s[k])
    ensures r == [] || !IsJsWhitespace(r[|r| - 1])
  {
    if s != [] && IsJsWhitespace(s[|s| - 1]) then TrimEnd(s[..|s| - 1]) else s
  }

  /** `s.trim()`: the slice of `s` left after removing whitespace at both ends. */
  function Trim(s: string): (r: string)
    ensures exists i, j ::
              0 <= i <= j <= |s| && r == s[i..j]
              && (forall k :: 0 <= k < i ==> IsJsWhitespace(s[k]))
              && (forall k :: j <= k < |s| ==> IsJsWhitespace(s[k]))
    ensures r == [] || (!IsJsWhitespace(r[0]) && !IsJsWhitespace(r[|r| - 1]))
  {
    var t := TrimStart(s);
    var r := TrimEnd(t);
    assert r == s[|s| - |t|..|s| - |t| + |r|];
    r
  }

  /*** Persona prompts ***/

  /** The seven personas of the prompt table. */
  datatype Persona = Direct | Tiktoker | Fashionista | Memelord | Gamer | Bookworm | Vsco

  /** The identifier under which each persona's prompt is stored. */
  function KeyOf(p: Persona): string {
    match p
    case Direct => "direct"
    case Tiktoker => "tiktoker"
    case Fashionista => "fashionista"
    case Memelord => "memelord"
    case Gamer => "gamer"
    case Bookworm => "bookworm"
    case Vsco => "vsco"
  }

  /** The persona whose identifier is `key`, if any. */
  function FromKey(key: string): (r: Option<Persona>)
    ensures r.Some? ==> KeyOf(r.value) == key
    ensures forall p :: KeyOf(p) == key ==> r == Some(p)
  {
    if key == "direct" then Some(Direct)
    else if key == "tiktoker" then Some(Tiktoker)
    else if key == "fashionista" then Some(Fashionista)
    else if key == "memelord" then Some(Memelord)
    else if key == "gamer" then Some(Gamer)
    else if key == "bookworm" then Some(Bookworm)
    else if key == "vsco" then Some(Vsco)
    else None
  }

  /** The rule every prompt carries at the same place in its list. */
  const NoAsterisksRule: string := "DO NOT use asterisks (*) in your response"

  /** The opening sentence of persona `p`'s prompt. */
  function Header(p: Persona): string {
    match p
    case Direct =>
      "You are a direct Gen-Z translator focused on preserving exact meaning. Format your response with bullet points for key information, but keep introductory or concluding statements as normal text. Your responses should:"
    case Tiktoker =>
      "You are a Gen-Z TikToker who speaks in viral slang. Format your response with bullet points for key trends or reactions, but keep the vibe check intro/outro as normal text. Your responses should:"
    case Fashionista =>
      "You are a fashion-obsessed Gen-Z influencer. Format your response with bullet points for style tips and statements, but keep the fashion commentary as flowing text. Your responses should:"
    case Memelord =>
      "You are a Gen-Z meme expert. Format your response with bullet points for the key meme references and reactions, but keep the overall vibe in regular text. Your responses should:"
    case Gamer =>
      "You are a Gen-Z gamer. Format your response with bullet points for key gaming moments and strategies, but keep the gamer talk flowing. Your responses should:"
    case Bookworm =>
      "You are a BookTok-obsessed Gen-Z reader. Format your response with bullet points for literary references and key thoughts, but keep the aesthetic vibes flowing. Your responses should:"
    case Vsco =>
      "You are a VSCO girl from Gen-Z. Format your response with bullet points for eco-friendly tips and key vibes, but keep the sksksk energy flowing. Your responses should:"
  }

  /** The bullet rules of each prompt, in order; the fifth is always `NoAsterisksRule`. */
  const DirectRules: seq<string> := [
    "Keep the exact same meaning and tone of the original text",
    "Use only the most common and widely understood Gen-Z expressions",
    "Add minimal emojis (only when they directly represent the meaning)",
    "Maintain the original text's formality level",
    NoAsterisksRule,
    "When responding, use bullet points (-) for main points or lists, but keep conversational elements as regular text",
    "Start with a brief intro if needed, then use bullets for key points, and end with a conclusion if appropriate"]
  const TiktokerRules: seq<string> := [
    "Use trending TikTok phrases and expressions",
    "Include emojis frequently (especially \U{1F480}, \U{1F62D}, \U{1F485}, \U{2728})",
    "Add \"fr fr\", \"no cap\", \"based\", \"slay\"",
    "Reference current TikTok trends",
    NoAsterisksRule,
    "When responding, start with a vibe check, then use bullet points (-) for the main tea \U{2615}, and end with a signature catchphrase",
    "Keep the energy high but make sure the key points stand out in bullets"]
  const FashionistaRules: seq<string> := [
    "Use fashion and beauty-related slang",
    "Include lots of \U{2728}\U{1F485}\U{1F483} emojis",
    "Add \"purr\", \"periodt\", \"ate and left no crumbs\"",
    "Reference fashion brands and aesthetics",
    NoAsterisksRule,
    "When responding, start with a style intro, use bullets (-) for the main fashion moments, and end with a signature sign-off",
    "Make sure your bullet points serve looks while the rest of the text spills the tea"]
  const MemelordRules: seq<string> := [
    "Reference popular memes and internet culture",
    "Use lots of \U{1F480}\U{1F62D}\U{1F5FF} emojis",
    "Add \"based\", \"chad\", \"L + ratio\"",
    "Make everything sound ironic and exaggerated",
    NoAsterisksRule,
    "When responding, start with a meme vibe, use bullets (-) for the main points, and end with a classic meme reference",
    "Keep the bullet points hitting different while the rest stays based"]
  const GamerRules: seq<string> := [
    "Use gaming and streaming slang",
    "Include gaming-related emojis \U{1F3AE}\U{1F525}\U{1F4AF}",
    "Add \"GG\", \"pog\", \"based\", \"copium\"",
    "Reference gaming culture and memes",
    NoAsterisksRule,
    "When responding, start with a gaming intro, use bullets (-) for the main strats, and end with a GG",
    "Make your bullet points hit like critical damage while keeping the rest of the text in the meta"]
  const BookwormRules: seq<string> := [
    "Use BookTok and academic slang",
    "Include book-related emojis \U{1F4DA}\U{2728}\U{1F97A}",
    "Add \"bestie\", \"this!\", \"I'm obsessed\"",
    "Reference dark academia aesthetic",
    NoAsterisksRule,
    "When responding, start with a literary opening, use bullets (-) for the main thoughts, and end with a poetic closing",
    "Make your bullet points give main character energy while the rest stays aesthetic"]
  const VscoRules: seq<string> := [
    "Use VSCO-specific slang",
    "Include nature/beach emojis \U{1F30A}\U{1F33F}\U{1F422}",
    "Add \"sksksk\", \"and I oop-\", \"save the turtles\"",
    "Reference sustainable/eco-friendly lifestyle",
    NoAsterisksRule,
    "When responding, start with a VSCO intro, use bullets (-) for the main points, and end with a signature sksksk",
    "Keep your bullet points giving beach vibes while the rest stays chill and positive"]

  /** The bullet rules of persona `p`'s prompt, in the order the prompt lists them. */
  function Rules(p: Persona): seq<string> {
    match p
    case Direct => DirectRules
    case Tiktoker => TiktokerRules
    case Fashionista => FashionistaRules
    case Memelord => MemelordRules
    case Gamer => GamerRules
    case Bookworm => BookwormRules
    case Vsco => VscoRules
  }

  /** Each rule on a line of its own, introduced by "- ". */
  function Bullets(rules: seq<string>): string {
    if rules == [] then "" else "\n- " + rules[0] + Bullets(rules[1..])
  }

  /** The system prompt of persona `p`. */
  function Prompt(p: Persona): string {
    Header(p) + Bullets(Rules(p))
  }

  /** The persona whose prompt is used for every key the table does not hold. */
  const Fallback: Persona := Tiktoker

  /** The persona whose prompt is stored under `key`, or the fallback persona when there is none. */
  function PersonaOf(key: string): (r: Persona)
    ensures forall p :: key == KeyOf(p) ==> r == p
    ensures (forall p :: key != KeyOf(p)) ==> r == Fallback
  {
    match FromKey(key)
    case Some(p) => p
    case None => Fallback
  }

  /** `getPersonaPrompt`: the prompt stored under `key`, or the TikToker prompt when there is none. */
  function PersonaPrompt(key: string): (r: string)
    ensures forall p :: key == KeyOf(p) ==> r == Prompt(p)
    ensures (forall p :: key != KeyOf(p)) ==> r == Prompt(Fallback)
  {
    Prompt(PersonaOf(key))
  }

  /** The bullet list of `rules` splits around its `k`-th rule. */
  lemma {:induction false} BulletsSplit(rules: seq<string>, k: nat)
    requires k < |rules|
    ensures Bullets(rules) == Bullets(rules[..k]) + "\n- " + rules[k] + Bullets(rules[k + 1..])
  {
    if k == 0 {
      assert rules[..0] == [];
    } else {
      BulletsSplit(rules[1..], k - 1);
      assert rules[1..][..k - 1] == rules[1..k];
      assert rules[1..][k - 1 + 1..] == rules[k + 1..];
      assert rules[..k][1..] == rules[1..k];
    }
  }

  /** Every persona has seven rules, the fifth of which forbids asterisks. */
  lemma RulesShape(p: Persona)
    ensures |Rules(p)| == 7 && Rules(p)[4] == NoAsterisksRule
  {
    match p
    case Direct =>
    case Tiktoker =>
    case Fashionista =>
    case Memelord =>
    case Gamer =>
    case Bookworm =>
    case Vsco =>
  }

  /** A text contains each of the pieces it is made of. */
  lemma ContainsMiddle(a: string, t: string, b: string)
    ensures Contains(a + t + b, t)
  {
    assert (a + t + b)[|a|..|a| + |t|] == t;
    assert OccursAt(a + t + b, t, |a|);
  }

  /** What a text contains, the text with anything in front of it still contains. */
  lemma ContainsAfterPrefix(h: string, s: string, t: string)
    requires Contains(s, t)
    ensures Contains(h + s, t)
  {
    var i :| 0 <= i <= |s| && OccursAt(s, t, i);
    assert (h + s)[|h| + i..|h| + i + |t|] == s[i..i + |t|];
    assert OccursAt(h + s, t, |h| + i);
  }

  /** A header followed by a bullet list contains each rule of the list. */
  lemma BulletsContainRule(header: string, rules: seq<string>, k: nat)
    requires k < |rules|
    ensures Contains(header + Bullets(rules), rules[k])
  {
    BulletsSplit(rules, k);
    ContainsMiddle(Bullets(rules[..k]) + "\n- ", rules[k], Bullets(rules[k + 1..]));
    ContainsAfterPrefix(header, Bullets(rules), rules[k]);
  }

  /** A text opens with any text it starts with. */
  lemma PrefixOfConcat(a: string, b: string)
    ensures a <= a + b
  {
    assert (a + b)[..|a|] == a;
  }

  /** The prompt of persona `p` opens with its header and states every one of its rules. */
  lemma PromptListsRules(p: Persona, k: nat)
    requires k < |Rules(p)|
    ensures Header(p) <= Prompt(p)
    ensures Contains(Prompt(p), Rules(p)[k])
  {
    var h, rules := Header(p), Rules(p);
    assert Prompt(p) == h + Bullets(rules);
    PrefixOfConcat(h, Bullets(rules));
    BulletsContainRule(h, rules, k);
  }

  /** The prompt of every persona tells the model not to use asterisks. */
  lemma PromptForbidsAsterisks(p: Persona)
    ensures Contains(Prompt(p), NoAsterisksRule)
  {
    RulesShape(p);
    BulletsContainRule(Header(p), Rules(p), 4);
  }

  /** Whichever key selects it, the prompt tells the model not to use asterisks. */
  lemma EveryPromptForbidsAsterisks(key: string)
    ensures Contains(PersonaPrompt(key), NoAsterisksRule)
  {
    match FromKey(key)
    case Some(p) => PromptForbidsAsterisks(p);
    case None => PromptForbidsAsterisks(Fallback);
  }

  /*** Request ***/

  /** The model the request names. */
  const ModelId: string := "deepseek/deepseek-r1-0528:free"

  /** The instruction placed before the user's text, which follows in double quotes. */
  const UserInstruction: string := "Translate this text into Gen-Z style based on the persona above. Format important points as bullet points (-) while keeping introductions and conclusions as regular text. Keep the core meaning but make it match the persona's style perfectly. DO NOT use asterisks in your response: \""

  /** The two chat messages of the request body. */
  datatype ChatRequest = ChatRequest(model: string, system: string, user: string)

  /** The request `translateText` sends for `text` and `persona`. */
  function BuildRequest(text: string, persona: string): (req: ChatRequest)
    ensures req.model == ModelId
    ensures req.system == PersonaPrompt(persona)
    ensures Contains(req.user, text) && Contains(req.system, NoAsterisksRule)
  {
    var user := UserInstruction + text + "\"";
    ContainsMiddle(UserInstruction, text, "\"");
    EveryPromptForbidsAsterisks(persona);
    ChatRequest(ModelId, PersonaPrompt(persona), user)
  }

  /*** Response ***/

  /** `choices[i].message.content`: `None` when it is missing or not a string. */
  datatype Choice = Choice(content: Option<string>)

  /** The body of the answer: `response.json()` may fail to parse. */
  datatype Body = Unparseable | Json(choices: seq<Choice>)

  /** What the HTTP call produced: a network failure or a response with its `ok` flag and body. */
  datatype FetchOutcome = NetworkError | Response(ok: bool, body: Body)

  /** `TranslationResponse`: the text, and a message when the call failed. */
  datatype TranslationResponse = TranslationResponse(text: string, error: Option<string>)

  /** The one message every failure is reported with. */
  const FailureMessage: string := "Failed to translate text. Please try again."

  /** The first choice's content, when the answer is usable; any other answer makes the source throw. */
  function Content(outcome: FetchOutcome): (r: Option<string>)
    ensures r.Some? ==> outcome.Response? && outcome.ok && outcome.body.Json?
                        && |outcome.body.choices| > 0 && outcome.body.choices[0].content == r
    ensures outcome.NetworkError? || !outcome.ok || outcome.body.Unparseable? ==> r.None?
    ensures outcome.Response? && outcome.body.Json? && outcome.body.choices == [] ==> r.None?
    ensures outcome.Response? && outcome.ok && outcome.body.Json? && |outcome.body.choices| > 0 &&
              outcome.body.choices[0].content.Some?
            ==> r == outcome.body.choices[0].content
  {
    if outcome.Response? && outcome.ok && outcome.body.Json?
       && |outcome.body.choices| > 0 && outcome.body.choices[0].content.Some?
    then outcome.body.choices[0].content
    else None
  }

  /** `translateText` after the request: a usable answer becomes its cleaned, trimmed content; anything else the fixed failure. */
  function TranslateText(outcome: FetchOutcome): (r: TranslationResponse)
    ensures r.error.None? <==> Content(outcome).Some?
    ensures r.error.Some? ==> r.text == "" && r.error == Some(FailureMessage)
    ensures r.error.None? ==> r.text == CleanResponse(Trim(Content(outcome).value))
    ensures '*' !in r.text
  {
    match Content(outcome)
    case Some(content) => TranslationResponse(CleanResponse(Trim(content)), None)
    case None => TranslationResponse("", Some(FailureMessage))
  }

  /*** Properties of the post-processing ***/

  /** Cleaning works piece by piece: it keeps the non-asterisk characters of each part in their order. */
  lemma {:induction false} CleanResponseAppend(a: string, b: string)
    ensures CleanResponse(a + b) == CleanResponse(a) + CleanResponse(b)
  {
    if a == [] {
      assert a + b == b;
    } else {
      assert (a + b)[0] == a[0];
      assert (a + b)[1..] == a[1..] + b;
      CleanResponseAppend(a[1..], b);
      if a[0] != '*' {
        assert CleanResponse(a + b) == [a[0]] + CleanResponse(a[1..] + b);
      }
    }
  }

  /** `r` can be obtained from `s` by deleting characters, the rest keeping their order. */
  predicate Subsequence(r: string, s: string)
    decreases |s|
  {
    if r == [] then true
    else if s == [] then false
    else (r[0] == s[0] && Subsequence(r[1..], s[1..])) || Subsequence(r, s[1..])
  }

  /** The cleaned text is the input with characters deleted and nothing reordered. */
  lemma {:induction false} CleanResponseKeepsOrder(s: string)
    ensures Subsequence(CleanResponse(s), s)
  {
    if s != [] {
      CleanResponseKeepsOrder(s[1..]);
      var r := CleanResponse(s);
      if s[0] != '*' {
        assert r[0] == s[0] && r[1..] == CleanResponse(s[1..]);
      }
    }
  }

  /** A string without asterisks is left as it is. */
  lemma {:induction false} CleanResponseIdentity(s: string)
    requires '*' !in s
    ensures CleanResponse(s) == s
  {
    if s != [] {
      assert s[0] in s;
      CleanResponseIdentity(s[1..]);
    }
  }

  /** Cleaning twice is cleaning once. */
  lemma CleanResponseIdempotent(s: string)
    ensures CleanResponse(CleanResponse(s)) == CleanResponse(s)
  {
    CleanResponseIdentity(CleanResponse(s));
  }

  /** Cleaning removes exactly the asterisks: the length drops by their number. */
  lemma {:induction false} CleanResponseLength(s: string)
    ensures |CleanResponse(s)| == |s| - multiset(s)['*']
  {
    if s != [] {
      assert s == [s[0]] + s[1..];
      CleanResponseLength(s[1..]);
    }
  }

  /**
   * Trimming happens before the asterisks are removed, so a trimmed answer can
   * still start with whitespace once an asterisk in front of it is gone.
   */
  lemma TrimThenCleanCanLeaveLeadingSpace()
    ensures TranslateText(Response(true, Json([Choice(Some("* hi"))]))).text == " hi"
  {
    assert TrimStart("* hi") == "* hi";
    assert TrimEnd("* hi") == "* hi";
    assert CleanResponse("* hi") == " hi" by {
      assert CleanResponse("i") == "i" by { assert "i"[1..] == ""; }
      assert CleanResponse("hi") == "hi" by { assert "hi"[1..] == "i"; }
      assert CleanResponse(" hi") == " hi" by { assert " hi"[1..] == "hi"; }
      assert "* hi"[1..] == " hi";
    }
  }
}
