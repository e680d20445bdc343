/**
 * The design request: validation of tone, hex colour and keywords, and the
 * prompt and description texts built from them.
 */
module NailDesign {
  import opened Options
  import opened JsStrings
  import opened Platform

  /** The `keywords` field: anything that is not an array, or an array of strings. */
  datatype Keywords = NotAnArray | Items(items: seq<string>)

  datatype Design = Design(promptUsed: string, designDescription: string)

  const InvalidInput := "Invalid input parameters"

  /** A line break followed by the twenty spaces of indentation inside the prompt literal. */
  const Indent := "\n                    "

  /** The fourth line of the prompt, as the service module spells it. */
  const ModelGuidance :=
    "The design should be simple, elegant, " + "easy with focus on creating " + "a beautiful nail art pattern."

  const DescriptionOpening := "A refined nail design for "

  /** Both tone and colour are truthy and `keywords` is an array of exactly three. */
  predicate ValidDesignInput(skinTone: JsValue, skinToneHex: JsValue, keywords: Keywords) {
    Truthy(skinTone) && Truthy(skinToneHex) && keywords.Items? && |keywords.items| == 3
  }

  const PromptOpening := "Design an elegant nail art pattern " + "ONLY ON THE NAIL AREA. " + Indent + "The client has "
  const PromptToneToHex := " skin tone (hex color: "
  /** The third line up to the keywords: its opening, its key phrase, and the lead-in to the list. */
  const PromptHexToHeading := "). " + Indent + "The "
  const KeywordsHeading := "key elements to include"
  const KeywordsLeadIn := " in the nail design are: "
  const PromptHexToKeywords := PromptHexToHeading + KeywordsHeading + KeywordsLeadIn
  const PromptClosing :=
    "IMPORTANT: Only modify the white nail area " + "in the template, keep the background as is."

  /** The last three lines of the prompt; `guidance` is the fourth line. */
  function PromptTail(guidance: string): string {
    "." + Indent + guidance + Indent + PromptClosing
  }

  /** The five-line prompt. */
  function DesignPrompt(skinTone: string, skinToneHex: string, keywords: seq<string>, guidance: string): string {
    PromptOpening + skinTone + PromptToneToHex + skinToneHex + PromptHexToKeywords +
    Join(keywords, ", ") + PromptTail(guidance)
  }

  const DescriptionToneToHex := " skin tone ("
  const DescriptionHexToKeywords := "), featuring patterns with "
  const DescriptionClosing := ". Uses harmonious colors and fine details."

  function DesignDescription(skinTone: string, skinToneHex: string, keywords: seq<string>): string {
    DescriptionOpening + skinTone + DescriptionToneToHex + skinToneHex + DescriptionHexToKeywords +
    Join(keywords, ", ") + DescriptionClosing
  }

  /** The prompt carries the tone, the colour and the joined keywords. */
  lemma DesignPromptCarries(tone: string, hex: string, keywords: seq<string>, guidance: string)
    ensures var p := DesignPrompt(tone, hex, keywords, guidance);
            Contains(p, tone) && Contains(p, hex) && Contains(p, Join(keywords, ", "))
  {
    CarriesSlots(PromptOpening, tone, PromptToneToHex, hex, PromptHexToKeywords, Join(keywords, ", "), PromptTail(guidance));
  }

  /** The description opens with a fixed phrase and carries the tone, the colour and the joined keywords. */
  lemma DesignDescriptionCarries(tone: string, hex: string, keywords: seq<string>)
    ensures var d := DesignDescription(tone, hex, keywords);
            && Contains(d, tone) && Contains(d, hex) && Contains(d, Join(keywords, ", "))
            && |DescriptionOpening| <= |d| && d[..|DescriptionOpening|] == DescriptionOpening
  {
    var o := DescriptionOpening;
    CarriesSlots(o, tone, DescriptionToneToHex, hex, DescriptionHexToKeywords, Join(keywords, ", "), DescriptionClosing);
  }

  /**
   * `generateDesign`: invalid input throws 'Invalid input parameters'; valid
   * input gives a prompt and a description that both carry the tone, the
   * colour and the three keywords joined with ", ".
   */
  function GenerateDesign(skinTone: JsValue, skinToneHex: JsValue, keywords: Keywords): (r: Result<Design, Error>)
    ensures r.Failure? <==> !ValidDesignInput(skinTone, skinToneHex, keywords)
    ensures r.Failure? ==> r.error == Error(InvalidInput)
    ensures r.Success? ==>
              var joined := Join(keywords.items, ", ");
              && Contains(r.value.promptUsed, skinTone.s)
              && Contains(r.value.promptUsed, skinToneHex.s)
              && Contains(r.value.promptUsed, joined)
              && Contains(r.value.designDescription, skinTone.s)
              && Contains(r.value.designDescription, skinToneHex.s)
              && Contains(r.value.designDescription, joined)
              && |DescriptionOpening| <= |r.value.designDescription|
              && r.value.designDescription[..|DescriptionOpening|] == DescriptionOpening
  {
    if !ValidDesignInput(skinTone, skinToneHex, keywords) then Failure(Error(InvalidInput))
    else
      var tone, hex, kws := skinTone.s, skinToneHex.s, keywords.items;
      DesignPromptCarries(tone, hex, kws, ModelGuidance);
      DesignDescriptionCarries(tone, hex, kws);
      Success(Design(DesignPrompt(tone, hex, kws, ModelGuidance), DesignDescription(tone, hex, kws)))
  }
}
