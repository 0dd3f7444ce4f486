/**
  The contact section of the single-page site: its form and status state and
  the submit handler. The handler uses exactly one delivery channel, in a fixed
  order: the Formspree relay when an id is configured; otherwise a WhatsApp deep
  link when the configured number has any digits; otherwise it reports that no
  backend is configured.

  The browser calls the handler makes (`fetch`, `window.open`) are recorded as
  effects. The relay's answer comes back as a separate event, because the
  handler awaits it with `status.sending` set.
 */
module Contact {
  import opened Wrappers
  import opened Inquiry
  import WhatsAppLink

  /** The `status` record; `ok` is `null` (None) until a submission settles. */
  datatype Status = Status(sending: bool, ok: Option<bool>, msg: string)

  const Idle := Status(false, None, "")
  const Sending := Status(true, None, "")
  const RelayThanks := Status(false, Some(true), "Thanks! We\U{2019}ll get back within a day.")
  const CouldNotSend := Status(false, Some(false), "Couldn\U{2019}t send. Please try again.")
  const OpeningWhatsApp := Status(false, Some(true), "Opening WhatsApp\U{2026} Message pre-filled.")
  const NoBackend := Status(false, Some(false),
    "No submission backend configured. Set VITE_FORMSPREE_ID or VITE_WHATSAPP_NUMBER in .env.")

  /** The build-time values of VITE_FORMSPREE_ID and VITE_WHATSAPP_NUMBER; None when unset. */
  datatype Config = Config(formspreeId: Option<string>, whatsappNumber: Option<string>)

  /** `v || ""`. */
  function OrEmpty(v: Option<string>): string {
    match v
    case Some(s) => s
    case None => ""
  }

  const RelayBase := "https://formspree.io/f/"

  /** A call into the browser: the relay `fetch` is a JSON POST whose body is
      the form record; `window.open` opens a URL in the given target. */
  datatype Effect = Post(url: string, body: Form) | Open(url: string, target: string)

  /** How the awaited relay request ends: a response with `ok`, a response
      without it, or a rejected `fetch`. */
  datatype RelayResult = Ok | NotOk | Threw

  /** The delivery channel of one submission. */
  datatype Channel = Relay(endpoint: string) | WhatsApp(digits: string, url: string) | Unconfigured

  /** Which channel a submission of `f` uses. The relay wins whenever an id
      is set. The deep link goes to the configured number's digits, and its
      text parameter decodes back to the inquiry text of `f`. */
  function SelectChannel(cfg: Config, f: Form): (ch: Channel)
    ensures ch.Relay? <==> OrEmpty(cfg.formspreeId) != ""
    ensures ch.Relay? ==> ch.endpoint == RelayBase + OrEmpty(cfg.formspreeId)
    ensures ch.WhatsApp? <==>
      OrEmpty(cfg.formspreeId) == "" && WhatsAppLink.StripNonDigits(OrEmpty(cfg.whatsappNumber)) != ""
    ensures ch.WhatsApp? ==>
      ch.digits == WhatsAppLink.StripNonDigits(OrEmpty(cfg.whatsappNumber)) &&
      WhatsAppLink.ParseWhatsAppUrl(ch.url) == Some((ch.digits, InquiryText(f)))
  {
    var fsId := OrEmpty(cfg.formspreeId);
    if fsId != "" then Relay(RelayBase + fsId)
    else
      var wa := WhatsAppLink.StripNonDigits(OrEmpty(cfg.whatsappNumber));
      if wa != "" then
        WhatsAppLink.WhatsAppUrlRoundTrip(wa, InquiryText(f));
        WhatsApp(wa, WhatsAppLink.WhatsAppUrl(wa, InquiryText(f)))
      else Unconfigured
  }

  /** The browser calls a submission makes before it awaits anything: at most
      one, and none when no channel is configured. */
  function Issued(ch: Channel, f: Form): (es: seq<Effect>)
    ensures |es| <= 1 && (es == [] <==> ch.Unconfigured?)
    ensures ch.Relay? ==> es == [Post(ch.endpoint, f)]
    ensures ch.WhatsApp? ==> es == [Open(ch.url, "_blank")]
  {
    match ch
    case Relay(endpoint) => [Post(endpoint, f)]
    case WhatsApp(_, url) => [Open(url, "_blank")]
    case Unconfigured => []
  }

  /** The status once the synchronous part of a submission has run: still
      sending only while the relay is awaited, ok only for the deep link. */
  function StatusAfterSubmit(ch: Channel): (s: Status)
    ensures s.sending <==> ch.Relay?
    ensures s.ok == Some(true) <==> ch.WhatsApp?
    ensures s.ok == Some(false) <==> ch.Unconfigured?
  {
    match ch
    case Relay(_) => Sending
    case WhatsApp(_, _) => OpeningWhatsApp
    case Unconfigured => NoBackend
  }

  /** The status once the relay has answered: settled, and ok exactly when
      the response was ok. */
  function StatusAfterRelay(r: RelayResult): (s: Status)
    ensures !s.sending && s.ok.Some? && (s.ok.value <==> r == Ok)
  {
    if r == Ok then RelayThanks else CouldNotSend
  }

  /** What the browser's constraint validation demands before it fires
      `submit`: the `required` name and email inputs are non-empty and the
      `type="email"` input holds an e-mail address (`isEmail`, not modelled). */
  predicate BrowserAccepts(f: Form, isEmail: string -> bool) {
    f.name != "" && f.email != "" && isEmail(f.email)
  }

  class ContactForm {
    const cfg: Config
    var form: Form
    var status: Status
    /** The browser calls made so far, oldest first. */
    var effects: seq<Effect>

    /** `sending` holds exactly while a relay request is awaited: the status
        is then the one set when the submission started, and the last call
        made is that request. */
    ghost predicate Valid()
      reads this
    {
      status.sending ==>
        status == Sending && OrEmpty(cfg.formspreeId) != "" &&
        |effects| > 0 && effects[|effects| - 1].Post?
    }

    /** The mounted component: empty form, idle status. */
    constructor (cfg: Config)
      ensures Valid() && this.cfg == cfg
      ensures form == EmptyForm && status == Idle && effects == []
    {
      this.cfg := cfg;
      form := EmptyForm;
      status := Idle;
      effects := [];
    }

    /** The submit button is disabled while sending. */
    predicate SubmitEnabled()
      reads this
    {
      !status.sending
    }

    /** `onChange` for the input named `k`. */
    method OnChange(k: Field, v: string)
      requires Valid()
      modifies this
      ensures Valid()
      ensures form == Set(old(form), k, v)
      ensures status == old(status) && effects == old(effects)
    {
      form := Set(form, k, v);
    }

    /** `onSubmit` up to the point where it awaits the relay or returns. */
    method OnSubmit()
      requires Valid() && SubmitEnabled()
      modifies this
      ensures Valid() && form == old(form)
      ensures var ch := SelectChannel(cfg, old(form));
        status == StatusAfterSubmit(ch) && effects == old(effects) + Issued(ch, old(form))
    {
      status := Sending;
      var fsId := OrEmpty(cfg.formspreeId);
      if fsId != "" {
        effects := effects + [Post(RelayBase + fsId, form)];
        return;
      }
      var wa := WhatsAppLink.StripNonDigits(OrEmpty(cfg.whatsappNumber));
      var text := InquiryText(form);
      if wa != "" {
        var url := WhatsAppLink.WhatsAppUrl(wa, text);
        effects := effects + [Open(url, "_blank")];
        status := OpeningWhatsApp;
      } else {
        status := NoBackend;
      }
    }

    /** The rest of `onSubmit` once the relay request settles. A response
        that is not ok throws, and the catch reports the failure just as for
        a rejected `fetch`. */
    method OnRelayResponse(r: RelayResult)
      requires Valid() && status.sending
      modifies this
      ensures Valid() && effects == old(effects)
      ensures status == StatusAfterRelay(r)
      ensures form == if r == Ok then EmptyForm else old(form)
    {
      match r
      case Ok =>
        status := RelayThanks;
        form := EmptyForm;
      case NotOk =>
        status := CouldNotSend;
      case Threw =>
        status := CouldNotSend;
    }

    /** Pressing "Send message". Nothing happens while the button is
        disabled, or while the browser's constraint validation fails;
        otherwise the submit handler runs. */
    method ClickSubmit(isEmail: string -> bool)
      requires Valid()
      modifies this
      ensures Valid() && form == old(form)
      ensures var ch := SelectChannel(cfg, old(form));
        if old(status.sending) || !BrowserAccepts(old(form), isEmail)
        then status == old(status) && effects == old(effects)
        else status == StatusAfterSubmit(ch) && effects == old(effects) + Issued(ch, old(form))
    {
      if SubmitEnabled() && BrowserAccepts(form, isEmail) {
        OnSubmit();
      }
    }
  }

  /** One relay submission from start to end: exactly one POST, whose body is
      the form as it was submitted, and no window is opened. On success the
      form is cleared and the thanks message shows. On failure the form keeps
      whatever it holds when the answer arrives, and the retry message shows. */
  method RelaySubmission(c: ContactForm, r: RelayResult)
    requires c.Valid() && c.SubmitEnabled() && OrEmpty(c.cfg.formspreeId) != ""
    modifies c
    ensures c.Valid() && c.SubmitEnabled()
    ensures c.effects == old(c.effects) + [Post(RelayBase + OrEmpty(c.cfg.formspreeId), old(c.form))]
    ensures c.status == (if r == Ok then RelayThanks else CouldNotSend)
    ensures c.form == (if r == Ok then EmptyForm else old(c.form))
  {
    c.OnSubmit();
    assert !c.SubmitEnabled();
    c.OnRelayResponse(r);
  }

  /** How the number is written does not matter: a non-digit inserted
      anywhere in it leaves the channel, and so the link, unchanged. */
  lemma ChannelIgnoresNumberFormatting(fsId: Option<string>, a: string, c: char, b: string, f: Form)
    requires !WhatsAppLink.IsDigit(c)
    ensures SelectChannel(Config(fsId, Some(a + [c] + b)), f) == SelectChannel(Config(fsId, Some(a + b)), f)
  {
    WhatsAppLink.StripNonDigitsIgnoresNonDigit(a, c, b);
  }
}
