/**
 The records shown by the fichas page and the draft behind its creation form.

 A row of the table is keyed by its `id`; the draft is a plain object with
 the three string fields the form edits (`nombre`, `fecha`, `estado`).
 */
module Fichas {
  import opened Wrappers

  /** Record identifiers as the server hands them out. */
  type Id = int

  /** A record as returned by the server: the four columns the table renders. */
  datatype Ficha = Ficha(id: Id, nombre: string, fecha: string, estado: string)

  /** The three draft fields, one per form input. */
  datatype Field = Nombre | Fecha | Estado

  /** The staged record the creation form edits and posts. */
  datatype Draft = Draft(nombre: string, fecha: string, estado: string)

  /** The draft the form starts with and returns to after a successful create. */
  const EmptyDraft: Draft := Draft("", "", "")

  /** The `name` attribute of the input that edits a field. */
  function Name(f: Field): string
  {
    match f
    case Nombre => "nombre"
    case Fecha => "fecha"
    case Estado => "estado"
  }

  /** The field an input `name` attribute refers to, if any. */
  function FieldOf(name: string): (r: Option<Field>)
    ensures r.Some? ==> Name(r.value) == name
    ensures r.None? ==> forall f: Field :: Name(f) != name
  {
    if name == "nombre" then Some(Nombre)
    else if name == "fecha" then Some(Fecha)
    else if name == "estado" then Some(Estado)
    else None
  }

  /** Reading an input's name back gives the field it edits. */
  lemma NameRoundTrip(f: Field)
    ensures FieldOf(Name(f)) == Some(f)
  {
    match f
    case Nombre =>
    case Fecha =>
    case Estado =>
  }

  /** Distinct fields have distinct input names. */
  lemma NameInjective(f: Field, g: Field)
    ensures Name(f) == Name(g) <==> f == g
  {
    NameRoundTrip(f);
    NameRoundTrip(g);
  }

  /** The value of one draft field. */
  function Get(d: Draft, f: Field): string
  {
    match f
    case Nombre => d.nombre
    case Fecha => d.fecha
    case Estado => d.estado
  }

  /** Two drafts are equal exactly when they agree on every field. */
  lemma DraftExtensional(d: Draft, e: Draft)
    ensures (forall f: Field :: Get(d, f) == Get(e, f)) <==> d == e
  {
    if forall f: Field :: Get(d, f) == Get(e, f) {
      assert Get(d, Nombre) == Get(e, Nombre);
      assert Get(d, Fecha) == Get(e, Fecha);
      assert Get(d, Estado) == Get(e, Estado);
    }
  }

  /** The draft with one field overwritten and the others copied over. */
  function Set(d: Draft, f: Field, value: string): (r: Draft)
    ensures Get(r, f) == value
    ensures forall g: Field :: g != f ==> Get(r, g) == Get(d, g)
  {
    match f
    case Nombre => d.(nombre := value)
    case Fecha => d.(fecha := value)
    case Estado => d.(estado := value)
  }

  /** Writing a field's current value back leaves the draft as it was. */
  lemma SetGet(d: Draft, f: Field)
    ensures Set(d, f, Get(d, f)) == d
  {
    DraftExtensional(Set(d, f, Get(d, f)), d);
  }

  /** A second write to the same field overrides the first. */
  lemma SetSet(d: Draft, f: Field, v: string, w: string)
    ensures Set(Set(d, f, v), f, w) == Set(d, f, w)
  {
    DraftExtensional(Set(Set(d, f, v), f, w), Set(d, f, w));
  }

  /** Writes to different fields commute. */
  lemma SetCommute(d: Draft, f: Field, g: Field, v: string, w: string)
    requires f != g
    ensures Set(Set(d, f, v), g, w) == Set(Set(d, g, w), f, v)
  {
    DraftExtensional(Set(Set(d, f, v), g, w), Set(Set(d, g, w), f, v));
  }
}
