/** The text-to-speech helpers of `ElevenLabsService`: personalising a
    campaign template, capping its length, and the base64 conversions of the
    audio.  The HTTP call to ElevenLabs itself is outside the model; what is
    modelled is the request the service sends. */
module ElevenLabsService {
  import opened Wrappers
  import Base64

  const Placeholder := "{name}"
  /** Messages are cut to this many characters before synthesis. */
  const MaxMessageLength := 500
  const BaseUrl := "https://api.elevenlabs.io/v1"
  const DefaultVoiceId := "21m00Tcm4TlvDq8ikWAM"
  const DefaultModelId := "eleven_monolingual_v1"

  /** Python's `s.replace(pat, rep)` for a non-empty pattern: occurrences are
      replaced left to right, without overlap, and the inserted text is not
      scanned again. */
  function ReplaceAll(s: string, pat: string, rep: string): string
    requires |pat| > 0
    decreases |s|
  {
    if |s| < |pat| then s
    else if s[..|pat|] == pat then rep + ReplaceAll(s[|pat|..], pat, rep)
    else [s[0]] + ReplaceAll(s[1..], pat, rep)
  }

  /** `template.replace("{name}", contact_name)`. */
  function Personalise(template: string, contactName: string): string {
    ReplaceAll(template, Placeholder, contactName)
  }

  predicate NoBrace(s: string) {
    forall i :: 0 <= i < |s| ==> s[i] != '{'
  }

  /** Text with no `{` passes through the substitution unchanged, and does
      not disturb what follows it. */
  lemma {:induction false} BraceFreePrefix(a: string, s: string, name: string)
    requires NoBrace(a)
    ensures Personalise(a + s, name) == a + Personalise(s, name)
    decreases |a|
  {
    if a != [] {
      var t := a + s;
      assert t[0] == a[0] && t[0] != '{';
      assert t[1..] == a[1..] + s;
      if |t| >= |Placeholder| {
        assert t[..|Placeholder|] != Placeholder by { assert t[..|Placeholder|][0] != '{'; }
      }
      BraceFreePrefix(a[1..], s, name);
      assert a == [a[0]] + a[1..];
    } else {
      assert a + s == s;
    }
  }

  /** A template without placeholders is spoken as written. */
  lemma NoPlaceholderUnchanged(template: string, name: string)
    requires NoBrace(template)
    ensures Personalise(template, name) == template
  {
    BraceFreePrefix(template, "", name);
    assert template + "" == template;
  }

  /** One placeholder is replaced by the name, whatever the name contains:
      a name that itself reads `{name}` is inserted literally, not expanded
      again. */
  lemma SinglePlaceholder(pre: string, post: string, name: string)
    requires NoBrace(pre) && NoBrace(post)
    ensures Personalise(pre + Placeholder + post, name) == pre + name + post
  {
    BraceFreePrefix(pre, Placeholder + post, name);
    var t := Placeholder + post;
    assert t[..|Placeholder|] == Placeholder && t[|Placeholder|..] == post;
    NoPlaceholderUnchanged(post, name);
    assert pre + Placeholder + post == pre + t;
  }

  /** The text actually sent for synthesis: the personalised template, cut
      to its first 500 characters when it is longer. */
  function SpokenText(template: string, contactName: string): (m: string)
    ensures |m| <= MaxMessageLength
    ensures var full := Personalise(template, contactName);
      |m| == (if |full| <= MaxMessageLength then |full| else MaxMessageLength) && m == full[..|m|]
  {
    var message := Personalise(template, contactName);
    if |message| > MaxMessageLength then message[..MaxMessageLength] else message
  }

  /** Truncation comes after substitution, so the name itself can be cut:
      with 499 characters before the placeholder only the first letter of
      the name is spoken. */
  lemma NameCanBeCut(name: string)
    requires |name| >= 2
    ensures var pre := seq(499, _ => 'x');
      SpokenText(pre + Placeholder, name) == pre + name[..1]
  {
    var pre := seq(499, _ => 'x');
    SinglePlaceholder(pre, "", name);
    assert pre + Placeholder + "" == pre + Placeholder;
    assert pre + name + "" == pre + name;
    assert (pre + name)[..500] == pre + name[..1];
  }

  /** The request `text_to_speech` sends for a campaign message. */
  datatype SpeechRequest = SpeechRequest(url: string, text: string, modelId: string)

  /** `generate_campaign_message`: the synthesis request it issues (the audio
      that comes back is ElevenLabs' answer, outside the model). */
  function CampaignMessageRequest(template: string, contactName: string, voiceId: string): (r: SpeechRequest)
    ensures |r.text| <= MaxMessageLength
    ensures r.text == SpokenText(template, contactName)
    ensures r.url == BaseUrl + "/text-to-speech/" + voiceId && r.modelId == DefaultModelId
  {
    SpeechRequest(BaseUrl + "/text-to-speech/" + voiceId, SpokenText(template, contactName), DefaultModelId)
  }

  /** `audio_to_base64`: the text always decodes back to the same audio. */
  function AudioToBase64(audio: seq<Base64.Byte>): (s: string)
    ensures |s| == (|audio| + 2) / 3 * 4
    ensures Base64.Decode(s) == Some(audio)
  {
    Base64.RoundTrip(audio);
    Base64.Encode(audio)
  }

  /** `base64_to_audio`: `None` where `b64decode` raises.  It undoes
      `audio_to_base64`, and on ASCII text it reads only the alphabet
      characters and the padding. */
  function Base64ToAudio(s: string): (r: Option<seq<Base64.Byte>>)
    ensures forall audio :: s == Base64.Encode(audio) ==> r == Some(audio)
    ensures r.Some? ==> Base64.Ascii(s)
  {
    forall audio | s == Base64.Encode(audio)
      ensures Base64.Decode(s) == Some(audio)
    {
      Base64.RoundTrip(audio);
    }
    Base64.Decode(s)
  }
}
