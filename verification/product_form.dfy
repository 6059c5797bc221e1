/**
 * The product form's validation schema and default values
 * (src/components/forms/ProductForm.tsx).
 */
module ProductForm {
  import opened Wrappers
  import opened Text

  // ---------------------------------------------------------------------------
  // The money pattern `^\d+(\.\d{1,2})?$`

  /** The length of the longest all-digit prefix of `s`. */
  function DigitRun(s: string): (n: nat)
    ensures n <= |s| && IsDigits(s[..n])
    ensures n < |s| ==> !IsDigit(s[n])
  {
    if |s| == 0 || !IsDigit(s[0]) then 0
    else
      var n := 1 + DigitRun(s[1..]);
      assert s[..n] == [s[0]] + s[1..][..n - 1];
      n
  }

  /**
   * The regular expression read as a split point: an integer part of one or
   * more digits ending at `i`, then either the end of the text or a point and
   * one or two more digits.
   */
  ghost predicate MoneySplitAt(s: string, i: int) {
    && 1 <= i <= |s| && IsDigits(s[..i])
    && (i == |s| || (s[i] == '.' && 2 <= |s| - i <= 3 && IsDigits(s[i + 1..])))
  }

  ghost predicate MatchesMoney(s: string) {
    exists i :: MoneySplitAt(s, i)
  }

  /** The matcher: the integer part is the whole run of leading digits. */
  predicate IsMoney(s: string)
  {
    var n := DigitRun(s);
    n >= 1 && (n == |s| || (s[n] == '.' && 2 <= |s| - n <= 3 && IsDigits(s[n + 1..])))
  }

  /** The greedy matcher accepts exactly the texts the pattern describes. */
  lemma IsMoneyIffMatches(s: string)
    ensures IsMoney(s) <==> MatchesMoney(s)
  {
    var n := DigitRun(s);
    if IsMoney(s) {
      assert MoneySplitAt(s, n);
    }
    if MatchesMoney(s) {
      var i :| MoneySplitAt(s, i);
      assert i == n;
    }
  }

  lemma MoneyExamples()
    ensures IsMoney("12") && IsMoney("12.5") && IsMoney("12.50") && IsMoney("0")
    ensures !IsMoney("") && !IsMoney(".5") && !IsMoney("12.") && !IsMoney("12.345")
    ensures !IsMoney("-1") && !IsMoney("1,5") && !IsMoney("1.5a")
  {
    assert DigitRun("12") == 2 by {
      assert "12"[1..] == "2";
      assert "2"[1..] == "";
    }
    assert DigitRun("12.5") == 2 by {
      assert "12.5"[1..] == "2.5";
      assert "2.5"[1..] == ".5";
    }
    assert "12.5"[3..] == "5";
    assert DigitRun("12.50") == 2 by {
      assert "12.50"[1..] == "2.50";
      assert "2.50"[1..] == ".50";
    }
    assert "12.50"[3..] == "50";
    assert DigitRun("0") == 1 by {
      assert "0"[1..] == "";
    }
    assert DigitRun(".5") == 0;
    assert DigitRun("-1") == 0;
    assert DigitRun("12.") == 2 by {
      assert "12."[1..] == "2.";
      assert "2."[1..] == ".";
    }
    assert DigitRun("12.345") == 2 by {
      assert "12.345"[1..] == "2.345";
      assert "2.345"[1..] == ".345";
    }
    assert DigitRun("1,5") == 1 by {
      assert "1,5"[1..] == ",5";
    }
    assert DigitRun("1.5a") == 1 by {
      assert "1.5a"[1..] == ".5a";
    }
    assert "1.5a"[2..][1] == 'a';
  }

  // ---------------------------------------------------------------------------
  // The schema

  /**
   * The values the schema checks. `stock` and `cantidadMinimaCompra` are the
   * numbers `z.coerce.number()` produced from the inputs.
   */
  datatype FormValues = FormValues(
    codigo: string,
    nombre: string,
    descripcion: string,
    stock: real,
    costo: string,
    precioVenta: string,
    pais: string,
    tiempoLlegada: string,
    cantidadMinimaCompra: real)

  datatype Field =
    Codigo | Nombre | Descripcion | Stock | Costo | PrecioVenta | Pais | TiempoLlegada | CantidadMinimaCompra

  /** The fields in the order the schema declares them. */
  const SchemaOrder: seq<Field> :=
    [Codigo, Nombre, Descripcion, Stock, Costo, PrecioVenta, Pais, TiempoLlegada, CantidadMinimaCompra]

  /** `.int()`: a number with no fractional part. */
  predicate IsInteger(x: real) {
    x.Floor as real == x
  }

  /** `z.coerce.number().int().positive()`. */
  predicate IsPositiveInteger(x: real) {
    IsInteger(x) && x > 0.0
  }

  /** The rule the schema attaches to one field. */
  predicate FieldValid(v: FormValues, f: Field) {
    match f
    case Codigo => |v.codigo| >= 1
    case Nombre => |v.nombre| >= 1
    case Descripcion => |v.descripcion| >= 1
    case Stock => IsPositiveInteger(v.stock)
    case Costo => IsMoney(v.costo)
    case PrecioVenta => IsMoney(v.precioVenta)
    case Pais => |v.pais| >= 1
    case TiempoLlegada => |v.tiempoLlegada| >= 1
    case CantidadMinimaCompra => IsPositiveInteger(v.cantidadMinimaCompra)
  }

  /** The schema as one conjunction over the nine fields. */
  predicate IsValid(v: FormValues) {
    && v.codigo != "" && v.nombre != "" && v.descripcion != ""
    && IsInteger(v.stock) && v.stock > 0.0
    && IsMoney(v.costo) && IsMoney(v.precioVenta)
    && v.pais != "" && v.tiempoLlegada != ""
    && IsInteger(v.cantidadMinimaCompra) && v.cantidadMinimaCompra > 0.0
  }

  /** The field, when its rule fails. */
  function Check(v: FormValues, f: Field): seq<Field> {
    if FieldValid(v, f) then [] else [f]
  }

  /** The fields whose message the form shows, in schema order. */
  function Errors(v: FormValues): (errors: seq<Field>)
    ensures forall f :: f in errors <==> !FieldValid(v, f)
    ensures |errors| <= |SchemaOrder|
  {
    ErrorsFacts(v);
    Check(v, Codigo) + Check(v, Nombre) + Check(v, Descripcion) + Check(v, Stock)
      + Check(v, Costo) + Check(v, PrecioVenta) + Check(v, Pais) + Check(v, TiempoLlegada)
      + Check(v, CantidadMinimaCompra)
  }

  lemma ErrorsFacts(v: FormValues)
    ensures var errors := Check(v, Codigo) + Check(v, Nombre) + Check(v, Descripcion) + Check(v, Stock)
      + Check(v, Costo) + Check(v, PrecioVenta) + Check(v, Pais) + Check(v, TiempoLlegada)
      + Check(v, CantidadMinimaCompra);
      && (forall f :: f in errors <==> !FieldValid(v, f))
      && |errors| <= |SchemaOrder|
  {
    var errors := Check(v, Codigo) + Check(v, Nombre) + Check(v, Descripcion) + Check(v, Stock)
      + Check(v, Costo) + Check(v, PrecioVenta) + Check(v, Pais) + Check(v, TiempoLlegada)
      + Check(v, CantidadMinimaCompra);
    forall f
      ensures f in errors <==> !FieldValid(v, f)
    {
      CheckHas(v, f, Codigo);
      CheckHas(v, f, Nombre);
      CheckHas(v, f, Descripcion);
      CheckHas(v, f, Stock);
      CheckHas(v, f, Costo);
      CheckHas(v, f, PrecioVenta);
      CheckHas(v, f, Pais);
      CheckHas(v, f, TiempoLlegada);
      CheckHas(v, f, CantidadMinimaCompra);
    }
  }

  lemma CheckHas(v: FormValues, f: Field, g: Field)
    ensures f in Check(v, g) <==> f == g && !FieldValid(v, g)
  {
  }

  /** The form has no message to show exactly when the whole schema holds. */
  lemma NoErrorsIffValid(v: FormValues)
    ensures Errors(v) == [] <==> IsValid(v)
  {
    if Errors(v) == [] {
      forall f: Field
        ensures FieldValid(v, f)
      {
        assert f !in Errors(v);
      }
      assert FieldValid(v, Codigo) && FieldValid(v, Nombre) && FieldValid(v, Descripcion);
      assert FieldValid(v, Stock) && FieldValid(v, Costo) && FieldValid(v, PrecioVenta);
      assert FieldValid(v, Pais) && FieldValid(v, TiempoLlegada) && FieldValid(v, CantidadMinimaCompra);
    } else {
      var f := Errors(v)[0];
      assert f in Errors(v);
    }
  }

  /** Text fields only ask for one character, so whitespace is enough. */
  lemma WhitespaceNamePasses(v: FormValues)
    requires v.nombre == " "
    ensures FieldValid(v, Nombre)
  {
  }

  /** `handleSubmit(onSubmit)`: `onSubmit` receives the values only when no field fails. */
  function Submit(v: FormValues): (submitted: Option<FormValues>)
    ensures submitted.Some? <==> IsValid(v)
    ensures submitted.Some? ==> submitted.value == v
  {
    NoErrorsIffValid(v);
    if Errors(v) == [] then Some(v) else None
  }

  // ---------------------------------------------------------------------------
  // Default values

  /** A product as the product service returns it. */
  datatype ProductRecord = ProductRecord(id: Option<int>, values: FormValues)

  /** The record the form starts from when no product is given. */
  const Blank: FormValues :=
    FormValues("", "", "", 0.0, "0", "0", "", "", 1.0)

  /** `product || {...}`: the given product, otherwise the blank record. */
  function Defaults(product: Option<ProductRecord>): (values: FormValues)
    ensures product.Some? ==> values == product.value.values
    ensures product.None? ==> values == Blank
  {
    match product
    case Some(p) => p.values
    case None => Blank
  }

  /**
   * Submitting the blank record untouched reports the five text fields and
   * the stock of 0; the money fields (`"0"`) and the minimum of 1 pass.
   */
  lemma BlankDefaultsErrors()
    ensures Errors(Defaults(None)) == [Codigo, Nombre, Descripcion, Stock, Pais, TiempoLlegada]
    ensures Submit(Defaults(None)).None?
  {
    BlankTextChecks();
    BlankNumberChecks();
    assert Errors(Blank) == [Codigo, Nombre, Descripcion, Stock, Pais, TiempoLlegada];
    NoErrorsIffValid(Blank);
  }

  lemma BlankTextChecks()
    ensures Check(Blank, Codigo) == [Codigo] && Check(Blank, Nombre) == [Nombre]
    ensures Check(Blank, Descripcion) == [Descripcion]
    ensures Check(Blank, Pais) == [Pais] && Check(Blank, TiempoLlegada) == [TiempoLlegada]
  {
  }

  lemma BlankNumberChecks()
    ensures Check(Blank, Stock) == [Stock] && Check(Blank, CantidadMinimaCompra) == []
    ensures Check(Blank, Costo) == [] && Check(Blank, PrecioVenta) == []
  {
    assert DigitRun("0") == 1 by {
      assert "0"[1..] == "";
    }
  }
}
