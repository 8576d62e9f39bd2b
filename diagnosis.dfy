/**
 * The request flow of the `/diagnose` endpoint (app.py:55-210): choose a model
 * handle, validate the request, assemble the prompt parts, call the model and
 * map its outcome, or any failure on the way, to the JSON answer.
 *
 * The web framework, the generative-model SDK and the image library are not part
 * of this model: the request arrives as its two fields, the loaded handles as
 * optional values, and image decoding and generation as function parameters.
 */
module Diagnosis {
  import opened Optional
  import opened Classifier

  /** The disclaimer every JSON answer carries. */
  const Disclaimer := "Disclaimer: This AI advice is for informational purposes only and is not a substitute for professional medical advice, diagnosis, or treatment. Always seek the advice of a qualified healthcare provider for any medical concerns."

  const NoModelAdvice := "No suitable AI model could be loaded on the server. Please contact support."
  const MissingInputAdvice := "Please describe your health problem or upload an image."
  const ImageUnsupportedAdvice :=
    "Image upload is not supported because the multimodal AI model failed to load. Please try again with text only."
  const BlockedAdvice :=
    "Your input was blocked by the safety filters. Please rephrase or provide different information. We cannot provide advice for potentially sensitive content."
  const ConnectionErrorAdvice :=
    "An error occurred while connecting to the AI. Please try again later. Ensure your API key is correct and you have an active internet connection."

  /** The instruction text that comes before the user's own words, and the text after them. */
  const PromptHead :=
    "\n" +
    "    You are an AI health assistant named HealGenie. Your primary goal is to provide preliminary, general health advice based on the user's described symptoms and/or provided image, and to guide them on the appropriate course of action.\n" +
    "\n" +
    "    Categorize the problem into one of three severities:\n" +
    "    1.  **Basic/Minor:** Can be managed with home remedies or self-care.\n" +
    "    2.  **Moderate:** Requires consulting a general practitioner or clinic.\n" +
    "    3.  **Severe/Emergency:** Requires immediate professional medical attention (e.g., emergency room, calling emergency services).\n" +
    "\n" +
    "    Follow these rules strictly:\n" +
    "    -   **Always start your response with \"Severity: [Basic/Moderate/Severe]\" on a new line.**\n" +
    "    -   **Then, provide \"Advice:\" on a new line, followed by detailed, structured advice.**\n" +
    "    -   Use Markdown for formatting the advice (e.g., bullet points for lists, bold for emphasis, headings for sections).\n" +
    "    -   For Basic problems, suggest clear, actionable home care tips, over-the-counter remedies, or general wellness advice. Include practical steps.\n" +
    "    -   For Moderate problems, advise seeking a doctor, and suggest what specific information to gather (e.g., symptom history, duration, associated factors, current medications). Recommend specific next steps.\n" +
    "    -   For Severe problems, issue a strong, urgent warning for immediate medical attention (e.g., call emergency services, go to an ER). Emphasize *not to delay* and why.\n" +
    "    -   **Be cautious.** If in doubt about severity or if the image/description is unclear, err on the side of caution and recommend professional medical consultation.\n" +
    "    -   **Do NOT provide a diagnosis.** Your role is advisory on the *next steps* for care.\n" +
    "    -   **Do NOT provide specific dosages for prescription medications.**\n" +
    "    -   Keep the advice concise but informative, using clear, simple language.\n" +
    "    -   **If an image is provided, incorporate insights from the image into your advice.** If no image, state \"Based on your description...\"\n" +
    "\n" +
    "    ---\n" +
    "    Example of desired output format:\n" +
    "    Severity: Basic\n" +
    "    Advice:\n" +
    "    Based on your description of a common cold:\n" +
    "    *   **Rest:** Get plenty of sleep to help your body recover.\n" +
    "    *   **Fluids:** Drink lots of water, herbal teas, and broths to stay hydrated.\n" +
    "    *   **Over-the-Counter:** Consider decongestants or pain relievers for symptom relief.\n" +
    "    *   **When to See a Doctor:** If symptoms worsen or persist for more than a week, consult a general practitioner.\n" +
    "\n" +
    "    User's Health Problem Description: \""
  const PromptTail := "\"\n    "

  /** A loaded generative-model handle, known by the name it was loaded under. */
  datatype Handle = Handle(modelName: string)

  /** The multipart `image` field: a file name and the raw bytes. */
  datatype Upload = Upload(filename: string, content: seq<bv8>)

  /** A decoded image, as the image library hands it to the model. */
  datatype Image = Image(pixels: seq<bv8>)

  /** One segment of the generation request. */
  datatype PromptPart = TextPart(text: string) | ImagePart(image: Image)

  /** What one call to the model yields: a reply, a safety-filter block, or any other fault. */
  datatype Generation = Generated(reply: string) | BlockedPrompt | GenerationFailed(message: string)

  /**
   * The endpoint's answer: a JSON object with its HTTP status, or an exception that
   * escapes the handler (the framework then answers with its own error page).
   */
  datatype Response =
    | Json(severity: string, advice: string, disclaimer: string, status: nat)
    | Uncaught

  /** An uploaded file counts as given when the part is present with a non-empty file name. */
  predicate Supplied(upload: Option<Upload>) {
    upload.Some? && upload.value.filename != ""
  }

  /**
   * The model handle a request goes to: the vision handle for a request with an
   * image when it is loaded, otherwise the text-only handle when it is loaded.
   */
  function SelectModel(hasImage: bool, vision: Option<Handle>, textOnly: Option<Handle>): (m: Option<Handle>)
    ensures hasImage && vision.Some? ==> m == vision
    ensures m.Some? ==> m == textOnly || (hasImage && m == vision)
    ensures m.None? <==> textOnly.None? && !(hasImage && vision.Some?)
  {
    if hasImage && vision.Some? then vision
    else if textOnly.Some? then textOnly
    else None
  }

  /** The text segment of the request: the instructions with the user's words quoted verbatim. */
  function Prompt(problem: string): string {
    PromptHead + problem + PromptTail
  }

  /** Text placed between a fixed head and tail can be read back from between them. */
  lemma {:induction false} Spliced(head: string, middle: string, tail: string)
    ensures (head + middle + tail)[..|head|] == head
    ensures (head + middle + tail)[|head|..|head| + |middle|] == middle
    ensures (head + middle + tail)[|head| + |middle|..] == tail
  {
  }

  /** The prompt is the fixed instructions, the user's words verbatim, then the closing quote. */
  lemma {:induction false} PromptQuotesProblem(problem: string)
    ensures Prompt(problem)[..|PromptHead|] == PromptHead
    ensures Prompt(problem)[|PromptHead|..|PromptHead| + |problem|] == problem
    ensures Prompt(problem)[|PromptHead| + |problem|..] == PromptTail
  {
    Spliced(PromptHead, problem, PromptTail);
  }

  /** Different descriptions give different prompts. */
  lemma {:induction false} PromptIsInjective(p: string, q: string)
    requires Prompt(p) == Prompt(q)
    ensures p == q
  {
    Spliced(PromptHead, p, PromptTail);
    Spliced(PromptHead, q, PromptTail);
  }

  /** The request passes every check before generation. */
  predicate ReachesModel(problem: string, upload: Option<Upload>, vision: Option<Handle>,
                         textOnly: Option<Handle>, decode: seq<bv8> -> Option<Image>)
  {
    && SelectModel(Supplied(upload), vision, textOnly).Some?
    && (problem != "" || Supplied(upload))
    && (Supplied(upload) ==> vision.Some? && decode(upload.value.content).Some?)
  }

  /**
   * Handles one request.  `vision` and `textOnly` are the handles start-up loaded
   * (start-up stops the app when neither loads, but the handler does not rely on it),
   * `decode` opens the uploaded bytes as an image and `generate` calls a model with
   * the prompt parts.  Returns the answer and the prompt parts built on the way.
   */
  method Diagnose(problem: string, upload: Option<Upload>, vision: Option<Handle>, textOnly: Option<Handle>,
                  decode: seq<bv8> -> Option<Image>, generate: (Handle, seq<PromptPart>) -> Generation)
    returns (response: Response, parts: seq<PromptPart>)
    ensures response.Json? ==> response.disclaimer == Disclaimer
    ensures SelectModel(Supplied(upload), vision, textOnly).None? ==>
              response == Json("Error", NoModelAdvice, Disclaimer, 500) && parts == []
    ensures SelectModel(Supplied(upload), vision, textOnly).Some? && problem == "" && !Supplied(upload) ==>
              response == Json("Error", MissingInputAdvice, Disclaimer, 400) && parts == []
    ensures SelectModel(Supplied(upload), vision, textOnly).Some? && Supplied(upload) && vision.None? ==>
              response == Json("Error", ImageUnsupportedAdvice, Disclaimer, 500) && parts == [TextPart(Prompt(problem))]
    ensures response.Uncaught? <==> Supplied(upload) && vision.Some? && decode(upload.value.content).None?
    ensures ReachesModel(problem, upload, vision, textOnly, decode) ==>
              && parts == [TextPart(Prompt(problem))] +
                          (if Supplied(upload) then [ImagePart(decode(upload.value.content).value)] else [])
              && var outcome := generate(SelectModel(Supplied(upload), vision, textOnly).value, parts);
                 && (outcome.Generated? ==>
                       response == Json(Classify(outcome.reply).severity, Classify(outcome.reply).advice, Disclaimer, 200))
                 && (outcome.BlockedPrompt? ==> response == Json("Blocked", BlockedAdvice, Disclaimer, 200))
                 && (outcome.GenerationFailed? ==> response == Json("Error", ConnectionErrorAdvice, Disclaimer, 200))
  {
    var hasImage := Supplied(upload);
    var model := SelectModel(hasImage, vision, textOnly);
    if model.None? {
      return Json("Error", NoModelAdvice, Disclaimer, 500), [];
    }
    if problem == "" && !hasImage {
      return Json("Error", MissingInputAdvice, Disclaimer, 400), [];
    }

    parts := [];
    parts := parts + [TextPart(Prompt(problem))];
    if hasImage && vision.Some? {
      var image := decode(upload.value.content);
      if image.None? {
        // the image library raises outside the handler's try block
        return Uncaught, parts;
      }
      parts := parts + [ImagePart(image.value)];
    } else if hasImage && vision.None? {
      return Json("Error", ImageUnsupportedAdvice, Disclaimer, 500), parts;
    }

    var severity, advice;
    match generate(model.value, parts) {
      case Generated(reply) =>
        var c := Classify(reply);
        severity, advice := c.severity, c.advice;
      case BlockedPrompt =>
        severity, advice := "Blocked", BlockedAdvice;
      case GenerationFailed(_) =>
        severity, advice := "Error", ConnectionErrorAdvice;
    }
    response := Json(severity, advice, Disclaimer, 200);
  }
}
