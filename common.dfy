/** Values shared by every screen of the app: optional values, table index paths,
    reverse-geocoded placemarks, and the one shape all three address formatters share:
    a fixed list of optional fields, each followed by its own separator when present. */
module Common {

  datatype Option<+T> = None | Some(value: T)

  /** A table index path. `EmptyPath` is Foundation's `IndexPath()`, which has no
      section and no row; reading `.row` of it is a runtime trap. */
  datatype IndexPath = EmptyPath | Path(section: nat, row: nat)

  /** The address fields of a reverse-geocoded placemark that the app reads. */
  datatype Placemark = Placemark(
    subThoroughfare: Option<string>,
    thoroughfare: Option<string>,
    locality: Option<string>,
    administrativeArea: Option<string>,
    postalCode: Option<string>,
    country: Option<string>)

  /** One step of an address formatter: `if let tmp = field { text += tmp + suffix }`. */
  datatype Piece = Piece(field: Option<string>, suffix: string)

  /** What one step appends. */
  function Contribution(p: Piece): (r: string)
    ensures p.field.None? ==> r == []
    ensures p.field.Some? ==> p.field.value <= r
    ensures p.field.Some? ==> r == p.field.value + p.suffix
  {
    match p.field
    case None => []
    case Some(v) => v + p.suffix
  }

  /** One formatter step, `if let tmp = field { text += tmp + suffix }`. */
  method AppendIfPresent(text: string, field: Option<string>, suffix: string) returns (r: string)
    ensures r == text + Contribution(Piece(field, suffix))
  {
    r := text;
    if field.Some? {
      r := r + field.value + suffix;
    }
  }

  /** The text a formatter builds from its steps, in order. */
  function Compose(pieces: seq<Piece>): string
  {
    if pieces == [] then [] else Contribution(pieces[0]) + Compose(pieces[1..])
  }

  /** Composing two runs of steps is concatenating their texts. */
  lemma {:induction false} ComposeAppend(a: seq<Piece>, b: seq<Piece>)
    ensures Compose(a + b) == Compose(a) + Compose(b)
  {
    if a == [] {
      assert a + b == b;
    } else {
      assert (a + b)[0] == a[0];
      assert (a + b)[1..] == a[1..] + b;
      ComposeAppend(a[1..], b);
      calc {
        Compose(a + b);
        Contribution(a[0]) + Compose(a[1..] + b);
        Contribution(a[0]) + (Compose(a[1..]) + Compose(b));
        (Contribution(a[0]) + Compose(a[1..])) + Compose(b);
      }
    }
  }

  /** A run of steps whose fields are all absent produces no text. */
  lemma {:induction false} ComposeAllAbsent(pieces: seq<Piece>)
    requires forall i :: 0 <= i < |pieces| ==> pieces[i].field.None?
    ensures Compose(pieces) == []
  {
    if pieces != [] {
      ComposeAllAbsent(pieces[1..]);
    }
  }

  /** An absent field contributes nothing wherever it sits, whatever its separator. */
  lemma ComposeSkipsAbsent(a: seq<Piece>, suffix: string, b: seq<Piece>)
    ensures Compose(a + [Piece(None, suffix)] + b) == Compose(a + b)
  {
    var absent := [Piece(None, suffix)];
    assert Compose(absent) == [] by {
      assert absent[1..] == [];
    }
    calc {
      Compose(a + absent + b);
      { ComposeAppend(a + absent, b); }
      Compose(a + absent) + Compose(b);
      { ComposeAppend(a, absent); }
      Compose(a) + Compose(b);
      { ComposeAppend(a, b); }
      Compose(a + b);
    }
  }

  /** When the last step is present and has no separator, its field ends the text. */
  lemma LastFieldIsSuffix(a: seq<Piece>, v: string)
    ensures Compose(a + [Piece(Some(v), "")]) == Compose(a) + v
  {
    ComposeAppend(a, [Piece(Some(v), "")]);
    assert Compose([Piece(Some(v), "")]) == v + "" + [];
  }

  /** Each formatter step appends its contribution to the text built so far. */
  lemma ComposeSnoc(done: seq<Piece>, p: Piece)
    ensures Compose(done + [p]) == Compose(done) + Contribution(p)
  {
    ComposeAppend(done, [p]);
    assert [p][1..] == [];
  }

  /** Composing a three-step run. */
  lemma ComposeThree(p0: Piece, p1: Piece, p2: Piece)
    ensures Compose([p0, p1, p2]) == Contribution(p0) + Contribution(p1) + Contribution(p2)
  {
    assert [p0, p1, p2][1..] == [p1, p2];
    assert [p1, p2][1..] == [p2];
    assert [p2][1..] == [];
    assert Compose([p2]) == Contribution(p2);
    assert Compose([p1, p2]) == Contribution(p1) + Contribution(p2);
  }
}
