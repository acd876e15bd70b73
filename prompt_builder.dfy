/**
 * The chat prompt serialiser (src/services/promptBuilder.ts): the system
 * prompt, an optional vision block, the last five conversation messages and
 * the current message, concatenated in that order.
 */
module PromptBuilder {
  import opened Wrappers
  import Text
  import Seqs

  /** One detected object (its `class` is `name` here); `percent` is the already rounded confidence. */
  datatype Detection = Detection(name: string, percent: nat)

  datatype VisionAnalysis = VisionAnalysis(detections: seq<Detection>, anomalies: seq<string>)

  datatype Message = Message(text: string, isUser: bool)

  const SystemPrompt :=
    "<|system|>\nYou are Fletcher, a sophisticated AI assistant with the mannerisms of a proper English gentleman. "
    + "You have access to real-time vision data and system diagnostics.\n"
    + "Respond in a helpful, professional manner while maintaining a natural conversation flow. "
    + "Keep responses concise and focused.</s>"

  const VisionHeader := "\n<|system|>Current vision data shows: "
  const AnomaliesHeader := "\nDetected anomalies: "

  // ---------------------------------------------------------------------------
  // The specification of the prompt
  // ---------------------------------------------------------------------------

  /** `${class} (${percent}% confidence)`. */
  function DetectionText(d: Detection): string {
    d.name + " (" + Text.NatToString(d.percent) + "% confidence)"
  }

  function DetectionTexts(ds: seq<Detection>): (r: seq<string>)
    ensures |r| == |ds|
    ensures forall k :: 0 <= k < |ds| ==> r[k] == DetectionText(ds[k])
  {
    seq(|ds|, k requires 0 <= k < |ds| => DetectionText(ds[k]))
  }

  /** The vision block: present only with detections; the anomalies line only inside it. */
  function VisionBlock(vision: Option<VisionAnalysis>): string {
    if vision.None? || |vision.value.detections| == 0 then ""
    else
      VisionHeader + Text.Join(DetectionTexts(vision.value.detections), ", ")
      + (if |vision.value.anomalies| > 0 then AnomaliesHeader + Text.Join(vision.value.anomalies, ", ") else "")
      + "</s>"
  }

  /** `context.slice(-5)`: the last five messages, or all of them when there are fewer. */
  function Window(context: seq<Message>): (w: seq<Message>)
    ensures |w| == if |context| < 5 then |context| else 5
    ensures w == context[|context| - |w|..]
  {
    if |context| <= 5 then context else context[|context| - 5..]
  }

  /** One conversation line, tagged by its speaker. */
  function Line(m: Message): string {
    "\n<|" + (if m.isUser then "user" else "assistant") + "|>" + m.text + "</s>"
  }

  /** The lines of the messages, in order. */
  function Lines(ms: seq<Message>): string
    decreases |ms|
  {
    if |ms| == 0 then "" else Lines(ms[..|ms| - 1]) + Line(ms[|ms| - 1])
  }

  function Tail(message: string): string {
    "\n<|user|>" + message + "</s>\n<|assistant|>"
  }

  /** The whole prompt. */
  ghost function Prompt(message: string, vision: Option<VisionAnalysis>, context: seq<Message>): string {
    SystemPrompt + VisionBlock(vision) + Lines(Window(context)) + Tail(message)
  }

  // ---------------------------------------------------------------------------
  // buildPrompt
  // ---------------------------------------------------------------------------

  /** `buildPrompt`. */
  method BuildPrompt(message: string, vision: Option<VisionAnalysis>, context: seq<Message>) returns (prompt: string)
    ensures prompt == Prompt(message, vision, context)
    ensures SystemPrompt <= prompt
    ensures prompt[|prompt| - |Tail(message)|..] == Tail(message)
  {
    prompt := Assemble(SystemPrompt, message, vision, context);
  }

  /**
   * The body of `buildPrompt` from its starting text: appends the vision
   * block, the window's lines and the message turn.
   */
  method Assemble(system: string, message: string, vision: Option<VisionAnalysis>, context: seq<Message>)
    returns (prompt: string)
    ensures prompt == system + VisionBlock(vision) + Lines(Window(context)) + Tail(message)
    ensures system <= prompt
    ensures prompt[|prompt| - |Tail(message)|..] == Tail(message)
  {
    prompt := AppendVision(system, vision);
    prompt := AppendLines(prompt, Window(context));
    prompt := prompt + Tail(message);
    ConcatEnds(system, VisionBlock(vision) + Lines(Window(context)), Tail(message));
  }

  /** The vision part of `buildPrompt`, appended piece by piece. */
  method AppendVision(start: string, vision: Option<VisionAnalysis>) returns (prompt: string)
    ensures prompt == start + VisionBlock(vision)
  {
    prompt := start;
    if vision.Some? && |vision.value.detections| > 0 {
      var shows := VisionHeader + Text.Join(DetectionTexts(vision.value.detections), ", ");
      prompt := prompt + shows;
      ghost var block := shows;
      if |vision.value.anomalies| > 0 {
        var line := AnomaliesHeader + Text.Join(vision.value.anomalies, ", ");
        Seqs.Assoc(start, block, line);
        prompt := prompt + line;
        block := block + line;
      }
      Seqs.Assoc(start, block, "</s>");
      prompt := prompt + "</s>";
      block := block + "</s>";
      assert block == VisionBlock(vision);
    }
  }

  /** The `forEach` over the window: one line per message, in order. */
  method AppendLines(start: string, window: seq<Message>) returns (prompt: string)
    ensures prompt == start + Lines(window)
  {
    prompt := start;
    var i := 0;
    while i < |window|
      invariant 0 <= i <= |window|
      invariant prompt == start + Lines(window[..i])
    {
      LinesStep(window, i);
      Seqs.Assoc(start, Lines(window[..i]), Line(window[i]));
      prompt := prompt + Line(window[i]);
      i := i + 1;
    }
    assert window[..i] == window;
  }

  lemma LinesStep(ms: seq<Message>, i: nat)
    requires i < |ms|
    ensures Lines(ms[..i + 1]) == Lines(ms[..i]) + Line(ms[i])
  {
    assert ms[..i + 1][..i] == ms[..i];
  }

  lemma ConcatEnds(a: string, b: string, c: string)
    ensures a <= a + b + c
    ensures (a + b + c)[|a + b + c| - |c|..] == c
  {
    assert (a + b + c)[..|a|] == a;
  }

  // ---------------------------------------------------------------------------
  // Properties of the prompt
  // ---------------------------------------------------------------------------

  /** The lines of two runs of messages are the lines of the first followed by those of the second. */
  lemma {:induction false} LinesAppend(a: seq<Message>, b: seq<Message>)
    ensures Lines(a + b) == Lines(a) + Lines(b)
    decreases |b|
  {
    if |b| == 0 {
      assert a + b == a;
    } else {
      var b' := b[..|b| - 1];
      assert (a + b)[..|a + b| - 1] == a + b';
      assert (a + b)[|a + b| - 1] == b[|b| - 1];
      LinesAppend(a, b');
      Seqs.Assoc(Lines(a), Lines(b'), Line(b[|b| - 1]));
    }
  }

  /** Every message is emitted as one line, tagged `user` exactly when it is the user's. */
  lemma LineTag(m: Message)
    ensures m.isUser ==> Line(m) == "\n<|user|>" + m.text + "</s>"
    ensures !m.isUser ==> Line(m) == "\n<|assistant|>" + m.text + "</s>"
  {
  }

  /** Only the last five messages are emitted: older ones do not change the prompt. */
  lemma OlderMessagesDropped(message: string, vision: Option<VisionAnalysis>, older: seq<Message>, recent: seq<Message>)
    requires |recent| == 5
    ensures Prompt(message, vision, older + recent) == Prompt(message, vision, recent)
  {
    assert (older + recent)[|older + recent| - 5..] == recent;
  }

  /** The vision block is present exactly when there are detections, and then opens with its header and closes the system turn. */
  lemma VisionBlockPresence(vision: Option<VisionAnalysis>)
    ensures VisionBlock(vision) != "" <==> vision.Some? && |vision.value.detections| > 0
    ensures VisionBlock(vision) != "" ==>
      VisionHeader <= VisionBlock(vision) && VisionBlock(vision)[|VisionBlock(vision)| - 4..] == "</s>"
  {
    if vision.Some? && |vision.value.detections| > 0 {
      var b := VisionBlock(vision);
      assert b[..|VisionHeader|] == VisionHeader;
    }
  }

  /** Anomalies without detections are dropped. */
  lemma AnomaliesNeedDetections(anomalies: seq<string>)
    ensures VisionBlock(Some(VisionAnalysis([], anomalies))) == ""
  {
  }

  /** With no vision data and no history the prompt is the system prompt followed by the message turn. */
  lemma BarePrompt(message: string)
    ensures Prompt(message, None, []) == SystemPrompt + "\n<|user|>" + message + "</s>\n<|assistant|>"
  {
  }
}
