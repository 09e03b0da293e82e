/**
 * The prompt list of recording.py: the built-in sentences and load_sentences,
 * which reads a sentences file one prompt per line.
 */
module Prompts {

  import opened Basics
  import opened Text

  /** The 35 built-in prompts. */
  const DEFAULT_SENTENCES: seq<string> := [
    "CQ Contest, CQ Contest, this is Whiskey Seven India Yankee.",
    "Alpha Bravo Three Charlie Delta calling CQ on twenty meters.",
    "Sierra Oscar Tango Alpha calling and listening.",
    "Whiskey Seven India Yankee, you're five nine in zone five.",
    "You're five nine nine, name here is Mike, Mike.",
    "Your signal is five seven here in Virginia.",
    "November One Mike Mike, you're five nine, QSL?",
    "That's five nine nine, contest number two three four.",
    "My QTH is Grid Square Echo Mike Seven Three.",
    "Zone one four, state is California, over.",
    "Running one hundred watts to a dipole antenna.",
    "Roger, thanks for the contact, seven three.",
    "Kilo Four Zulu Echo Charlie, go ahead please.",
    "Frequency is clear, go ahead with your call.",
    "Good luck in the contest, Whiskey Seven India Yankee clear.",
    "Confirm your callsign is November Seven Bravo Romeo Charlie?",
    "Last two of serial number are eight seven.",
    "What's your power output and antenna configuration?",
    "Can you hear me through the static and interference?",
    "Which band are you planning to operate on tonight?",
    "Have you worked any DX stations this morning?",
    "Are you using a vertical or horizontal polarization?",
    "The weather here is cloudy with occasional showers.",
    "Propagation conditions are excellent on fifteen meters today.",
    "Heavy thunderstorms are affecting reception in the northeast.",
    "My transceiver is a modern digital radio with DSP.",
    "The antenna tuner matches impedance perfectly.",
    "I'm adjusting the microphone gain for better audio quality.",
    "Please switch to the upper sideband for this contact.",
    "I've been a licensed amateur radio operator for twelve years.",
    "The local club meets every Thursday evening at seven.",
    "Your audio sounds crisp and clear on my receiver.",
    "I enjoy chasing rare DX entities and collecting QSL cards.",
    "My favorite mode is CW, though I also enjoy phone contacts.",
    "During the contest, I managed to work stations in over forty countries across six continents."
  ]

  /** A prompt as the loader can produce it: non-empty, stripped, on one line. */
  predicate IsPrompt(s: string)
  {
    s != [] && Stripped(s) && '\n' !in s && '\r' !in s
  }

  /** `[line.strip() for line in f if line.strip()]`. */
  function NonBlank(lines: seq<string>): (r: seq<string>)
    ensures |r| <= |lines|
  {
    if lines == [] then [] else KeepLine(lines[0]) + NonBlank(lines[1..])
  }

  /** What one line adds: its stripped text, or nothing when that is empty. */
  function KeepLine(line: string): seq<string>
  {
    var s := Strip(line);
    if s != [] then [s] else []
  }

  /**
   * load_sentences: `content` is the text of the file, None when it is missing
   * or cannot be read; with no non-blank line, or no file, the built-in list.
   */
  function LoadSentences(content: Option<string>): seq<string>
  {
    match content
    case None => DEFAULT_SENTENCES
    case Some(text) =>
      var found := NonBlank(ReadLines(text));
      if found == [] then DEFAULT_SENTENCES else found
  }

  /** Every line the loader keeps is a prompt; nothing that is one line is lost. */
  lemma {:induction false} NonBlankPrompts(lines: seq<string>)
    requires forall k :: 0 <= k < |lines| ==> '\n' !in lines[k] && '\r' !in lines[k]
    ensures forall k :: 0 <= k < |NonBlank(lines)| ==> IsPrompt(NonBlank(lines)[k])
  {
    if lines != [] {
      NonBlankPrompts(lines[1..]);
      var s := Strip(lines[0]);
      StripIsStripped(lines[0]);
      StripSpec(lines[0]);
      assert s == lines[0][StripStart(lines[0])..StripStart(lines[0]) + |s|];
      NotInSlice(lines[0], '\n', StripStart(lines[0]), StripStart(lines[0]) + |s|);
      NotInSlice(lines[0], '\r', StripStart(lines[0]), StripStart(lines[0]) + |s|);
    }
  }

  /** The stripped non-blank lines, each a prompt, in file order. */
  lemma {:induction false} NonBlankOfPrompts(ss: seq<string>)
    requires forall k :: 0 <= k < |ss| ==> IsPrompt(ss[k])
    ensures NonBlank(ss) == ss
  {
    if ss != [] {
      StripOfStripped(ss[0]);
      NonBlankOfPrompts(ss[1..]);
    }
  }

  /**
   * load_sentences never returns an empty list: a missing file, or one with
   * only blank lines, gives the built-in list, and every sentence it takes
   * from a file is non-empty, stripped and on one line.
   */
  lemma LoadSentencesPrompts(content: Option<string>)
    ensures |LoadSentences(content)| > 0
    ensures content.None? || NonBlank(ReadLines(content.value)) == [] ==>
      LoadSentences(content) == DEFAULT_SENTENCES
    ensures content.Some? && NonBlank(ReadLines(content.value)) != [] ==>
      LoadSentences(content) == NonBlank(ReadLines(content.value)) &&
      forall k :: 0 <= k < |LoadSentences(content)| ==> IsPrompt(LoadSentences(content)[k])
  {
    if content.Some? {
      NonBlankPrompts(ReadLines(content.value));
    }
  }

  /** Filtering distributes over concatenation. */
  lemma {:induction false} NonBlankAppend(a: seq<string>, b: seq<string>)
    ensures NonBlank(a + b) == NonBlank(a) + NonBlank(b)
  {
    if a == [] {
      assert a + b == b;
    } else {
      var ab := a + b;
      assert ab[0] == a[0] && ab[1..] == a[1..] + b;
      NonBlankAppend(a[1..], b);
      assert NonBlank(ab) == KeepLine(a[0]) + NonBlank(a[1..] + b);
    }
  }

  /** The file a list of prompts is written as, one per line with a '\n' after each. */
  function PromptFile(ss: seq<string>): string
  {
    if ss == [] then [] else ss[0] + "\n" + PromptFile(ss[1..])
  }

  /** The lines of a prompt file are its prompts followed by one empty piece. */
  lemma {:induction false} PromptFileLines(ss: seq<string>)
    requires forall k :: 0 <= k < |ss| ==> IsPrompt(ss[k])
    ensures ReadLines(PromptFile(ss)) == ss + [""]
  {
    if ss == [] {
      assert Universal("") == "" && IndexOf("", '\n') == None;
    } else {
      PromptFileLines(ss[1..]);
      ReadLinesCons(ss[0], PromptFile(ss[1..]));
    }
  }

  /** The non-blank lines of a prompt file are its prompts. */
  lemma PromptFileNonBlank(ss: seq<string>)
    requires forall k :: 0 <= k < |ss| ==> IsPrompt(ss[k])
    ensures NonBlank(ReadLines(PromptFile(ss))) == ss
  {
    PromptFileLines(ss);
    NonBlankAppend(ss, [""]);
    NonBlankOfPrompts(ss);
    assert NonBlank([""]) == [];
  }

  /** Reading back a file of prompts gives the same prompts, in the same order. */
  lemma PromptFileRoundTrip(ss: seq<string>)
    requires |ss| > 0
    requires forall k :: 0 <= k < |ss| ==> IsPrompt(ss[k])
    ensures LoadSentences(Some(PromptFile(ss))) == ss
  {
    var t := PromptFile(ss);
    PromptFileNonBlank(ss);
    assert NonBlank(ReadLines(t)) != [];
    LoadFromFile(t);
  }

  lemma LoadFromFile(text: string)
    requires NonBlank(ReadLines(text)) != []
    ensures LoadSentences(Some(text)) == NonBlank(ReadLines(text))
  {
  }
}
