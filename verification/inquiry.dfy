/**
  The five-field form record of the single-page site's contact section, its
  per-field update, and the plain-text inquiry sent through WhatsApp.
 */
module Inquiry {

  datatype Form = Form(name: string, email: string, company: string, phone: string, message: string)

  /** The form as mounted and as reset after a successful relay. */
  const EmptyForm := Form("", "", "", "", "")

  /** The `name` attributes of the five inputs, in the order of the record. */
  datatype Field = Name | Email | Company | Phone | Message

  function Get(f: Form, k: Field): string {
    match k
    case Name => f.name
    case Email => f.email
    case Company => f.company
    case Phone => f.phone
    case Message => f.message
  }

  /** `{...s, [e.target.name]: e.target.value}`: the named field takes the new
      value and every other field keeps its old one. */
  function Set(f: Form, k: Field, v: string): (r: Form)
    ensures Get(r, k) == v
    ensures forall j :: j != k ==> Get(r, j) == Get(f, j)
  {
    match k
    case Name => f.(name := v)
    case Email => f.(email := v)
    case Company => f.(company := v)
    case Phone => f.(phone := v)
    case Message => f.(message := v)
  }

  /** A form is determined by what its fields read. */
  lemma FormsEqualByFields(f: Form, g: Form)
    requires forall k :: Get(f, k) == Get(g, k)
    ensures f == g
  {
    assert Get(f, Name) == Get(g, Name) && Get(f, Email) == Get(g, Email);
    assert Get(f, Company) == Get(g, Company) && Get(f, Phone) == Get(g, Phone);
    assert Get(f, Message) == Get(g, Message);
  }

  /** Writing back what a field already holds changes nothing, and a second
      write to the same field overrides the first. */
  lemma SetLaws(f: Form, k: Field, v: string, w: string)
    ensures Set(f, k, Get(f, k)) == f
    ensures Set(Set(f, k, v), k, w) == Set(f, k, w)
  {
    FormsEqualByFields(Set(f, k, Get(f, k)), f);
    FormsEqualByFields(Set(Set(f, k, v), k, w), Set(f, k, w));
  }

  /** The fixed text in front of each field's value. */
  function Label(k: Field): string {
    match k
    case Name => "New inquiry (KrishvaTech)\nName: "
    case Email => "\nEmail: "
    case Company => "\nCompany: "
    case Phone => "\nPhone: "
    case Message => "\n\nMessage:\n"
  }

  /** The place of each field in the text: Name, Email, Company, Phone, Message. */
  function Position(k: Field): (i: nat)
    ensures i < 5
  {
    match k
    case Name => 0
    case Email => 1
    case Company => 2
    case Phone => 3
    case Message => 4
  }

  /** The pieces of the inquiry text: each field's label, then its value. */
  function Pieces(f: Form): (ps: seq<string>)
    ensures |ps| == 10
  {
    [Label(Name), f.name, Label(Email), f.email, Label(Company), f.company,
     Label(Phone), f.phone, Label(Message), f.message]
  }

  /** Each field's label is immediately followed by its value among the pieces. */
  lemma PiecesAt(f: Form, k: Field)
    ensures Pieces(f)[2 * Position(k)] == Label(k) && Pieces(f)[2 * Position(k) + 1] == Get(f, k)
  {
  }

  /** The pieces written one after another. */
  function Flatten(ps: seq<string>): string
    decreases |ps|
  {
    if ps == [] then [] else ps[0] + Flatten(ps[1..])
  }

  /** The text of the inquiry, as the template literal lays it out: "New
      inquiry (KrishvaTech)", then one line per field with its label, and the
      message last, after a blank line and a line of its own. */
  function InquiryText(f: Form): string {
    Flatten(Pieces(f))
  }

  /** Where piece `i` starts in `Flatten(ps)`. */
  function Offset(ps: seq<string>, i: nat): nat
    requires i <= |ps|
    decreases i
  {
    if i == 0 then 0 else |ps[0]| + Offset(ps[1..], i - 1)
  }

  /** From where piece `i` starts, the text is the rest of the pieces. */
  lemma {:induction false} FlattenSuffix(ps: seq<string>, i: nat)
    requires i <= |ps|
    ensures Offset(ps, i) <= |Flatten(ps)|
    ensures Flatten(ps)[Offset(ps, i)..] == Flatten(ps[i..])
    decreases i
  {
    if i > 0 {
      var j := Offset(ps[1..], i - 1);
      FlattenSuffix(ps[1..], i - 1);
      assert ps[1..][i - 1..] == ps[i..];
      assert (ps[0] + Flatten(ps[1..]))[|ps[0]| + j..] == Flatten(ps[1..])[j..];
    }
  }

  /** Piece `i` sits in `Flatten(ps)` at `Offset(ps, i)`, unchanged. */
  lemma FlattenAt(ps: seq<string>, i: nat)
    requires i < |ps|
    ensures Offset(ps, i) + |ps[i]| <= |Flatten(ps)|
    ensures Flatten(ps)[Offset(ps, i)..Offset(ps, i) + |ps[i]|] == ps[i]
  {
    var rest := Flatten(ps[i + 1..]);
    assert Flatten(ps)[Offset(ps, i)..] == ps[i] + rest by {
      FlattenSuffix(ps, i);
      assert ps[i..][0] == ps[i] && ps[i..][1..] == ps[i + 1..];
    }
    SliceOfPrefix(Flatten(ps), Offset(ps, i), ps[i], rest);
  }

  /** If the text from `p` on is `a + b`, then `a` starts at `p`. */
  lemma SliceOfPrefix(t: string, p: nat, a: string, b: string)
    requires p <= |t| && t[p..] == a + b
    ensures p + |a| <= |t| && t[p..p + |a|] == a
  {
    assert t[p..p + |a|] == t[p..][..|a|];
  }

  /** Pieces `i` and `i + 1` sit next to each other in `Flatten(ps)`, the second
      starting at `Offset(ps, i + 1)`. */
  lemma PairLayout(ps: seq<string>, i: nat)
    requires i + 1 < |ps|
    ensures var t, p, l, v := Flatten(ps), Offset(ps, i + 1), ps[i], ps[i + 1];
      |l| <= p && p + |v| <= |t| && t[p - |l|..p] == l && t[p..p + |v|] == v
  {
    FlattenAt(ps, i);
    FlattenAt(ps, i + 1);
    OffsetStep(ps, i);
  }

  lemma {:induction false} OffsetStep(ps: seq<string>, i: nat)
    requires i < |ps|
    ensures Offset(ps, i + 1) == Offset(ps, i) + |ps[i]|
    decreases i
  {
    if i > 0 {
      OffsetStep(ps[1..], i - 1);
    }
  }

  lemma {:induction false} OffsetEnd(ps: seq<string>)
    ensures Offset(ps, |ps|) == |Flatten(ps)|
    decreases |ps|
  {
    if ps != [] {
      OffsetEnd(ps[1..]);
    }
  }

  /** Where the value of field `k` starts in the inquiry text. */
  function FieldStart(f: Form, k: Field): nat {
    Offset(Pieces(f), 2 * Position(k) + 1)
  }

  /** The inquiry text carries every field's value verbatim, right after that
      field's label. */
  lemma InquiryTextLayout(f: Form, k: Field)
    ensures var t, p, l := InquiryText(f), FieldStart(f, k), Label(k);
      |l| <= p && p + |Get(f, k)| <= |t| && t[p - |l|..p] == l && t[p..p + |Get(f, k)|] == Get(f, k)
  {
    PiecesAt(f, k);
    PairLayout(Pieces(f), 2 * Position(k));
  }

  /** The next field's label follows each value directly, so the fields come
      in the order Name, Email, Company, Phone, Message. */
  lemma NextLabelFollowsValue(f: Form, k: Field)
    requires k != Message
    ensures FieldStart(f, NextField(k)) == FieldStart(f, k) + |Get(f, k)| + |Label(NextField(k))|
  {
    var ps, i, n := Pieces(f), 2 * Position(k) + 1, NextField(k);
    assert 2 * Position(n) + 1 == i + 2;
    PiecesAt(f, k);
    PiecesAt(f, n);
    OffsetStep(ps, i);
    OffsetStep(ps, i + 1);
  }

  /** The message is the last thing in the text. */
  lemma MessageEndsText(f: Form)
    ensures FieldStart(f, Message) + |f.message| == |InquiryText(f)|
  {
    var ps := Pieces(f);
    assert ps[9] == f.message;
    OffsetStep(ps, 9);
    OffsetEnd(ps);
  }

  /** The field that follows `k` in the text. */
  function NextField(k: Field): (n: Field)
    requires k != Message
    ensures Position(n) == Position(k) + 1
  {
    match k
    case Name => Email
    case Email => Company
    case Company => Phone
    case Phone => Message
  }
}
