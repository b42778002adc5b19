/** POST /api/ai/classify: suggests a category for a photo. The provider named by the
    environment decides how: a random pick (mock), a caption matched against keywords
    (huggingface), or a chat model's JSON answer normalised against the known categories
    (deepseek, and OpenAI for every other name). The upstream HTTP exchange is an input. */
module ClassifyRoute {
  import opened Http
  import opened Text

  const DefaultCategories: seq<string> := ["Potholes", "Drainage", "Street light", "Garbage"]
  const NoneCategory := "none"

  /** The environment variables the handler reads. */
  datatype Env = Env(
    aiProvider: Option<string>,
    openAiKey: Option<string>,
    deepSeekKey: Option<string>,
    huggingFaceKey: Option<string>)

  /** `(AI_PROVIDER || "mock").toLowerCase()`. */
  function Provider(env: Env): string
  {
    Lower(if Truthy(env.aiProvider) then env.aiProvider.value else "mock")
  }

  /** deepseek and huggingface have their own key; every other provider uses OpenAI's. */
  function ApiKey(provider: string, env: Env): Option<string>
  {
    if provider == "deepseek" then env.deepSeekKey
    else if provider == "huggingface" then env.huggingFaceKey
    else env.openAiKey
  }

  function MissingKeyError(provider: string): string
  {
    if provider == "deepseek" then "Missing DEEPSEEK_API_KEY"
    else if provider == "huggingface" then "Missing HUGGINGFACE_API_KEY"
    else "Missing OPENAI_API_KEY"
  }

  const MockHint := "Set AI_PROVIDER=mock for demo mode (no API key needed)"

  function MissingKeyHint(provider: string): string
  {
    if provider == "deepseek" then "Set DEEPSEEK_API_KEY and optionally AI_PROVIDER=deepseek"
    else if provider == "huggingface" then "Set HUGGINGFACE_API_KEY (get free token at huggingface.co/settings/tokens)"
    else if provider == "mock" then MockHint
    else "Set OPENAI_API_KEY or set AI_PROVIDER=deepseek with DEEPSEEK_API_KEY"
  }

  /** The 500 reply for a provider whose key is missing. */
  function MissingKey(provider: string): Failure
  {
    Failure(500, MissingKeyError(provider), Some(MissingKeyHint(provider)))
  }

  /** The request body. `categories` is `None` when absent or not an array. */
  datatype ClassifyBody = ClassifyBody(image: Option<string>, categories: Option<seq<string>>)

  /** The supplied list when it is a non-empty array, the four built-in ones otherwise. */
  function KnownCategories(categories: Option<seq<string>>): (r: seq<string>)
    ensures |r| > 0
    ensures categories.Some? && |categories.value| > 0 ==> r == categories.value
    ensures !(categories.Some? && |categories.value| > 0) ==> r == DefaultCategories
  {
    if categories.Some? && |categories.value| > 0 then categories.value else DefaultCategories
  }

  /** The mock provider's two random draws: an index into the built-in categories
      (`Math.floor(Math.random() * 4)`) and whether to answer "none" instead. */
  datatype MockDraw = MockDraw(pick: nat, isNone: bool)

  /** How the upstream call ended. For an answer, `caption` is the captioning model's
      `generated_text` ("" when absent) and `category` and `reason` are the fields of the
      chat model's JSON answer ("" when absent or unparseable). */
  datatype Upstream =
    | NetworkError
    | HttpError(status: int)
    | Answer(caption: string, category: string, reason: string)

  datatype Classification = Classification(category: string, reason: string)

  /** The huggingface keyword cascade over the lower-cased caption. */
  function CaptionCategory(caption: string): Classification
  {
    var text := Lower(caption);
    if Contains(text, "pothole") || Contains(text, "hole") then
      Classification("Potholes", "Detected pothole in image")
    else if Contains(text, "drain") || Contains(text, "sewer") || Contains(text, "water") then
      Classification("Drainage", "Detected drainage issue")
    else if Contains(text, "light") || Contains(text, "lamp") || Contains(text, "streetlight") then
      Classification("Street light", "Detected street light issue")
    else if Contains(text, "garbage") || Contains(text, "trash") || Contains(text, "waste") || Contains(text, "litter") then
      Classification("Garbage", "Detected garbage/trash issue")
    else
      Classification(NoneCategory, "No civic issue detected in image")
  }

  predicate MentionsHole(t: string) { Contains(t, "hole") }
  predicate MentionsDrainage(t: string) { Contains(t, "drain") || Contains(t, "sewer") || Contains(t, "water") }
  predicate MentionsLight(t: string) { Contains(t, "light") || Contains(t, "lamp") }
  predicate MentionsGarbage(t: string)
  {
    Contains(t, "garbage") || Contains(t, "trash") || Contains(t, "waste") || Contains(t, "litter")
  }

  /** The first matching group wins, in the order potholes, drainage, street light,
      garbage, and no match gives "none". The keywords "pothole" and "streetlight" never
      decide anything: every text containing them also contains "hole" or "light". */
  lemma CaptionCascade(caption: string)
    ensures var t := Lower(caption);
            var c := CaptionCategory(caption).category;
            && (c == "Potholes" <==> MentionsHole(t))
            && (c == "Drainage" <==> !MentionsHole(t) && MentionsDrainage(t))
            && (c == "Street light" <==> !MentionsHole(t) && !MentionsDrainage(t) && MentionsLight(t))
            && (c == "Garbage" <==> !MentionsHole(t) && !MentionsDrainage(t) && !MentionsLight(t) && MentionsGarbage(t))
            && (c == NoneCategory <==> !MentionsHole(t) && !MentionsDrainage(t) && !MentionsLight(t) && !MentionsGarbage(t))
  {
    var t := Lower(caption);
    assert OccursAt("pothole", "hole", 3);
    assert OccursAt("streetlight", "light", 6);
    if Contains(t, "pothole") {
      ContainsTransitive(t, "pothole", "hole");
    }
    if Contains(t, "streetlight") {
      ContainsTransitive(t, "streetlight", "light");
    }
  }

  /** The caption path only ever answers one of the four built-in labels or "none",
      whatever categories the request supplied. */
  lemma CaptionLabelsFixed(caption: string)
    ensures CaptionCategory(caption).category in DefaultCategories + [NoneCategory]
  {
  }

  /** `known.find(c => c.toLowerCase() === category.toLowerCase())`. */
  function FindIgnoringCase(known: seq<string>, category: string): (r: Option<string>)
    ensures r.Some? ==> exists i :: 0 <= i < |known| && known[i] == r.value
                                    && Lower(known[i]) == Lower(category)
                                    && forall j :: 0 <= j < i ==> Lower(known[j]) != Lower(category)
    ensures r.None? ==> forall i :: 0 <= i < |known| ==> Lower(known[i]) != Lower(category)
  {
    if known == [] then None
    else if Lower(known[0]) == Lower(category) then Some(known[0])
    else
      var r := FindIgnoringCase(known[1..], category);
      if r.Some? then
        var i :| 0 <= i < |known[1..]| && known[1..][i] == r.value
                 && Lower(known[1..][i]) == Lower(category)
                 && forall j :: 0 <= j < i ==> Lower(known[1..][j]) != Lower(category);
        assert known[i + 1] == r.value;
        assert forall j :: 1 <= j < i + 1 ==> known[j] == known[1..][j - 1];
        r
      else r
  }

  /** A chat model's category is answered as the first known category equal to it up to
      case, or unchanged when none is. */
  function NormaliseCategory(known: seq<string>, category: string): (r: string)
    ensures (forall i :: 0 <= i < |known| ==> Lower(known[i]) != Lower(category)) ==> r == category
    ensures forall i :: 0 <= i < |known| && Lower(known[i]) == Lower(category)
                        && (forall j :: 0 <= j < i ==> Lower(known[j]) != Lower(category))
                        ==> r == known[i]
  {
    var found := FindIgnoringCase(known, category);
    if found.Some? && found.value != "" then found.value else category
  }

  /** The request passed the key check and the image check. */
  predicate Validated(env: Env, body: ClassifyBody)
  {
    (Provider(env) == "mock" || Truthy(ApiKey(Provider(env), env))) && Truthy(body.image)
  }

  /** A provider answering through a chat model: every one but mock and huggingface. */
  predicate ChatProvider(env: Env)
  {
    Provider(env) != "mock" && Provider(env) != "huggingface"
  }

  /** The handler. `draw` is the mock provider's randomness and `upstream` the outcome of
      the call to the provider. */
  function Classify(env: Env, body: ClassifyBody, draw: MockDraw, upstream: Upstream): (r: Reply<Classification>)
    requires draw.pick < |DefaultCategories|
    ensures var p := Provider(env);
            p != "mock" && !Truthy(ApiKey(p, env)) ==> r == Fail(MissingKey(p))
    ensures var p := Provider(env);
            (p == "mock" || Truthy(ApiKey(p, env))) && !Truthy(body.image)
            ==> r == Error(400, "Missing image data URL")
    ensures Validated(env, body) && Provider(env) == "mock"
            ==> && r.Ok?
                && (draw.isNone ==> r.value.category == NoneCategory)
                && (!draw.isNone ==> r.value.category == DefaultCategories[draw.pick])
    ensures Validated(env, body) && Provider(env) != "mock" && upstream == NetworkError
            ==> r == Error(500, "AI network error")
    ensures Validated(env, body) && Provider(env) != "mock" && upstream.HttpError?
            ==> r == Error(upstream.status, "AI API error")
    ensures Validated(env, body) && Provider(env) == "huggingface" && upstream.Answer?
            ==> r == Ok(CaptionCategory(upstream.caption))
    ensures Validated(env, body) && ChatProvider(env) && upstream.Answer?
            ==> && (upstream.category == "" ==> r == Error(500, "Invalid AI response"))
                && (upstream.category != "" && Lower(upstream.category) == NoneCategory
                    ==> r == Ok(Classification(NoneCategory, upstream.reason)))
                && (upstream.category != "" && Lower(upstream.category) != NoneCategory
                    ==> r == Ok(Classification(NormaliseCategory(KnownCategories(body.categories), upstream.category),
                                               upstream.reason)))
    ensures r.Ok? && (Provider(env) == "mock" || Provider(env) == "huggingface")
            ==> r.value.category in DefaultCategories + [NoneCategory]
    ensures r.Ok? && ChatProvider(env)
            ==> && upstream.Answer? && upstream.category != ""
                && if Lower(upstream.category) == NoneCategory then
                     r.value == Classification(NoneCategory, upstream.reason)
                   else
                     && r.value.reason == upstream.reason
                     && Lower(r.value.category) == Lower(upstream.category)
                     && (r.value.category in KnownCategories(body.categories)
                         || (r.value.category == upstream.category
                             && forall c :: c in KnownCategories(body.categories) ==> Lower(c) != Lower(upstream.category)))
    ensures r.Fail? && r.failure.error == "Invalid AI response"
            ==> ChatProvider(env) && upstream.Answer? && upstream.category == ""
  {
    var provider := Provider(env);
    var apiKey := ApiKey(provider, env);
    if !Truthy(apiKey) && provider != "mock" then Fail(MissingKey(provider))
    else if !Truthy(body.image) then Error(400, "Missing image data URL")
    else
      var known := KnownCategories(body.categories);
      if provider == "mock" then
        var picked := DefaultCategories[draw.pick];
        Ok(if draw.isNone then Classification(NoneCategory, "No civic issue detected in image")
           else Classification(picked, "Detected " + Lower(picked) + " issue"))
      else
        match upstream
        case NetworkError => Error(500, "AI network error")
        case HttpError(status) => Error(status, "AI API error")
        case Answer(caption, category, reason) =>
          if provider == "huggingface" then
            CaptionLabelsFixed(caption);
            Ok(CaptionCategory(caption))
          else if category == "" then Error(500, "Invalid AI response")
          else
            UpperEqualsIffLowerEquals(category, "NONE", NoneCategory);
            if Upper(category) == "NONE" then Ok(Classification(NoneCategory, reason))
            else
              Ok(Classification(NormaliseCategory(known, category), reason))
  }

  /** A missing key is reported only for deepseek, huggingface and the OpenAI fallback,
      so its hint is never the one written for the mock provider. */
  lemma MissingKeyNeverHintsMock(env: Env, body: ClassifyBody, draw: MockDraw, upstream: Upstream)
    requires draw.pick < |DefaultCategories|
    ensures var r := Classify(env, body, draw, upstream);
            r.Fail? && r.failure.detail.Some? ==> r.failure.detail.value != MockHint
  {
  }
}
