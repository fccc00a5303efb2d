/**
 * `backend/src/middlewares/validations.ts`: the phone rule and the celebrate/Joi schemas
 * the routers put in front of the handlers. A schema is read as what it is in the source,
 * a table from body key to rule; `Validate` is Joi's `object().keys(...)` over that table
 * with Joi's defaults (unknown keys refused, `null` refused unless allowed, strings to
 * numbers converted), and celebrate answers every refusal with 400.
 */
module Validations {
  import opened Wrappers
  import opened Errors
  import opened JsValues
  import JsText

  /**
   * What the schemas delegate to libraries: `Types.ObjectId.isValid`, Joi's `email()`
   * rule, and Joi's string-to-number conversion (None when it refuses the string).
   */
  datatype Checkers = Checkers(isObjectId: string -> bool, isEmail: string -> bool, toNumber: string -> Option<int>)

  predicate IsPhoneChar(c: char)
  {
    JsText.IsDigit(c) || c == '+'
  }

  /** `replace(/[^\d+]/g, '')`: the digits and plus signs of `s`, in order. */
  function NormalizePhone(s: string): (r: string)
    ensures |r| <= |s|
    ensures forall k :: 0 <= k < |r| ==> IsPhoneChar(r[k])
    ensures (forall k :: 0 <= k < |s| ==> IsPhoneChar(s[k])) ==> r == s
  {
    if |s| == 0 then ""
    else (if IsPhoneChar(s[0]) then [s[0]] else []) + NormalizePhone(s[1..])
  }

  /** Normalisation works piece by piece: it never looks at two characters together. */
  lemma {:induction false} NormalizePhoneConcat(a: string, b: string)
    ensures NormalizePhone(a + b) == NormalizePhone(a) + NormalizePhone(b)
  {
    if |a| == 0 {
      assert a + b == b;
    } else {
      assert (a + b)[0] == a[0];
      assert (a + b)[1..] == a[1..] + b;
      NormalizePhoneConcat(a[1..], b);
    }
  }

  /** Normalisation keeps every digit and plus sign as often as it occurs, and nothing else. */
  lemma {:induction false} NormalizePhoneCounts(s: string)
    ensures forall c :: multiset(NormalizePhone(s))[c] == if IsPhoneChar(c) then multiset(s)[c] else 0
  {
    if |s| > 0 {
      NormalizePhoneCounts(s[1..]);
      assert s == [s[0]] + s[1..];
      assert multiset(s) == multiset([s[0]]) + multiset(s[1..]);
    }
  }

  /** A normalised number is its own normalisation. */
  lemma NormalizePhoneIdempotent(s: string)
    ensures NormalizePhone(NormalizePhone(s)) == NormalizePhone(s)
  {
  }

  predicate AllDigits(s: string)
  {
    forall k :: 0 <= k < |s| ==> JsText.IsDigit(s[k])
  }

  /** `/^\+?\d{7,15}$/.test(s)`, read left to right: an optional plus, then the digits. */
  predicate PhoneOk(s: string)
  {
    var digits := if |s| > 0 && s[0] == '+' then s[1..] else s;
    7 <= |digits| <= 15 && AllDigits(digits)
  }

  /** The pattern as a language: 7 to 15 digits, with or without one plus sign in front. */
  lemma {:induction false} PhonePattern(s: string)
    ensures PhoneOk(s) <==> exists d :: AllDigits(d) && 7 <= |d| <= 15 && (s == d || s == "+" + d)
  {
    if PhoneOk(s) {
      var d := if |s| > 0 && s[0] == '+' then s[1..] else s;
      assert s == d || s == "+" + d;
    }
    if exists d :: AllDigits(d) && 7 <= |d| <= 15 && (s == d || s == "+" + d) {
      var d :| AllDigits(d) && 7 <= |d| <= 15 && (s == d || s == "+" + d);
      if s == d {
        assert JsText.IsDigit(s[0]);
      } else {
        assert s[1..] == d;
      }
    }
  }

  /** An accepted phone number keeps at most one plus sign, and only in front. */
  lemma {:induction false} PhonePlusOnlyInFront(s: string, k: int)
    requires PhoneOk(s) && 0 < k < |s|
    ensures s[k] != '+'
  {
    if s[0] == '+' {
      assert s[1..][k - 1] == s[k];
    }
  }

  /** The rules the schemas use, each one a Joi chain of the source. */
  datatype Rule =
    | Chars(minLen: nat, maxLen: Option<nat>, allowEmpty: bool)  // Joi.string().min().max(), `.allow('')`
    | Email                                                      // Joi.string().email()
    | OneOf(choices: set<string>)                                // Joi.string().valid(...)
    | Phone                                                      // Joi.string().custom(phone rule)
    | Number(allowNull: bool)                                    // Joi.number(), `.allow(null)`
    | IdList                                                     // Joi.array().items(object id).min(1)
    | Id                                                         // Joi.string().custom(object id)
    | FileRef                                                    // Joi.object().keys({ fileName, originalName })

  datatype Spec = Spec(required: bool, rule: Rule)

  /** A schema: each key the body may carry, with its rule. */
  type Schema = map<string, Spec>

  predicate NonEmptyText(v: Json)
  {
    v.JStr? && v.s != ""
  }

  predicate IsIdText(v: Json, ck: Checkers)
  {
    NonEmptyText(v) && ck.isObjectId(v.s)
  }

  /** `Number.MAX_SAFE_INTEGER`, 2^53 - 1. */
  const MaxSafeInteger: int := 9007199254740991

  /** Joi's `number()` refuses a number outside the safe range (`number.unsafe`) unless `.unsafe()` is given. */
  predicate SafeNumber(n: int)
  {
    -MaxSafeInteger <= n <= MaxSafeInteger
  }

  /**
   * Whether one value passes one rule. `''` is refused by every string rule without
   * `.allow('')`; `min` and `max` count UTF-16 code units, as `String.prototype.length` does.
   */
  predicate Accepts(rule: Rule, v: Json, ck: Checkers)
  {
    match rule
    case Chars(lo, hi, allowEmpty) =>
      v.JStr? && (if v.s == "" then allowEmpty
                  else lo <= JsText.Utf16Length(v.s) && (hi.None? || JsText.Utf16Length(v.s) <= hi.value))
    case Email => NonEmptyText(v) && ck.isEmail(v.s)
    case OneOf(choices) => v.JStr? && v.s in choices
    case Phone => NonEmptyText(v) && PhoneOk(NormalizePhone(v.s))
    case Number(allowNull) =>
      || (allowNull && v.JNull?)
      || (v.JNum? && SafeNumber(v.n))
      || (v.JStr? && ck.toNumber(v.s).Some? && SafeNumber(ck.toNumber(v.s).value))
    case IdList => v.JArr? && |v.items| >= 1 && forall i :: 0 <= i < |v.items| ==> IsIdText(v.items[i], ck)
    case Id => IsIdText(v, ck)
    case FileRef =>
      v.JObj? && v.fields.Keys <= {"fileName", "originalName"} &&
      "fileName" in v.fields && NonEmptyText(v.fields["fileName"]) &&
      "originalName" in v.fields && NonEmptyText(v.fields["originalName"])
  }

  /** The value Joi hands on: the phone custom rule returns the normalised number, numbers are converted. */
  function Converted(rule: Rule, v: Json, ck: Checkers): (r: Json)
    ensures Accepts(rule, v, ck) ==> Accepts(rule, r, ck)
    ensures rule.Number? && Accepts(rule, v, ck) ==> r.JNull? || (r.JNum? && SafeNumber(r.n))
  {
    match rule
    case Phone =>
      if v.JStr? then
        NormalizePhoneIdempotent(v.s);
        JStr(NormalizePhone(v.s))
      else v
    case Number(_) => if v.JStr? && ck.toNumber(v.s).Some? then JNum(ck.toNumber(v.s).value) else v
    case _ => v
  }

  /** A body passes a schema: it is an object, has no key the schema does not list, lacks no required key, and each value passes its rule. */
  predicate SchemaAccepts(schema: Schema, body: Json, ck: Checkers)
  {
    body.JObj? && body.fields.Keys <= schema.Keys &&
    (forall k :: k in schema && schema[k].required ==> k in body.fields) &&
    (forall k :: k in body.fields && k in schema ==> Accepts(schema[k].rule, body.fields[k], ck))
  }

  /** `celebrate({ body: schema })`: the converted body, or 400. */
  function Validate(schema: Schema, body: Json, ck: Checkers): (r: Result<map<string, Json>>)
    ensures r.Ok? <==> SchemaAccepts(schema, body, ck)
    ensures r.Err? ==> r.error == BadRequest
    ensures r.Ok? ==> r.value.Keys == body.fields.Keys
    ensures r.Ok? ==> forall k :: k in r.value ==> k in schema && Accepts(schema[k].rule, r.value[k], ck)
    ensures r.Ok? ==> forall k :: k in r.value && schema[k].rule.Phone? ==> r.value[k] == JStr(NormalizePhone(body.fields[k].s))
    ensures r.Ok? ==> forall k :: k in r.value && !schema[k].rule.Phone? && !schema[k].rule.Number? ==> r.value[k] == body.fields[k]
  {
    if SchemaAccepts(schema, body, ck) then
      Ok(map k | k in body.fields && k in schema :: Converted(schema[k].rule, body.fields[k], ck))
    else Err(BadRequest)
  }

  /** Converting an already converted value changes nothing. */
  lemma ConvertedIdempotent(rule: Rule, v: Json, ck: Checkers)
    ensures Converted(rule, Converted(rule, v, ck), ck) == Converted(rule, v, ck)
  {
    if rule.Phone? && v.JStr? {
      NormalizePhoneIdempotent(v.s);
    }
  }

  /** A validated body validates again to itself: celebrate's output is a fixed point. */
  lemma {:induction false} ValidationIsAFixedPoint(schema: Schema, body: Json, ck: Checkers)
    requires Validate(schema, body, ck).Ok?
    ensures Validate(schema, JObj(Validate(schema, body, ck).value), ck) == Validate(schema, body, ck)
  {
    var out := Validate(schema, body, ck).value;
    assert SchemaAccepts(schema, JObj(out), ck);
    var again := Validate(schema, JObj(out), ck).value;
    assert again.Keys == out.Keys;
    forall k | k in out
      ensures again[k] == out[k]
    {
      ConvertedIdempotent(schema[k].rule, body.fields[k], ck);
    }
    assert again == out;
  }

  /** A key no rule mentions makes the body fail, whatever else it holds. */
  lemma UnknownKeyRejected(schema: Schema, body: Json, ck: Checkers, key: string)
    requires body.JObj? && key in body.fields && key !in schema
    ensures Validate(schema, body, ck) == Err(BadRequest)
  {
  }

  /** A required key that is absent makes the body fail. */
  lemma MissingRequiredRejected(schema: Schema, body: Json, ck: Checkers, key: string)
    requires key in schema && schema[key].required && (body.JObj? ==> key !in body.fields)
    ensures Validate(schema, body, ck) == Err(BadRequest)
  {
  }

  /** `PaymentType`: the two payment methods an order may name. */
  const PaymentTypes: set<string> := {"card", "online"}

  /** `validateOrderBody`. */
  const OrderBody: Schema := map[
    "items" := Spec(true, IdList),
    "payment" := Spec(true, OneOf(PaymentTypes)),
    "email" := Spec(true, Email),
    "phone" := Spec(true, Phone),
    "address" := Spec(true, Chars(0, None, false)),
    "total" := Spec(true, Number(false)),
    "comment" := Spec(false, Chars(0, None, true))
  ]

  /** The rule and requiredness of each key of the order schema. */
  lemma OrderBodyRules()
    ensures OrderBody.Keys == {"items", "payment", "email", "phone", "address", "total", "comment"}
    ensures OrderBody["items"] == Spec(true, IdList) && OrderBody["payment"] == Spec(true, OneOf(PaymentTypes))
    ensures OrderBody["email"] == Spec(true, Email) && OrderBody["phone"] == Spec(true, Phone)
    ensures OrderBody["address"] == Spec(true, Chars(0, None, false)) && OrderBody["total"] == Spec(true, Number(false))
    ensures OrderBody["comment"] == Spec(false, Chars(0, None, true))
  {
  }

  /** The two required entries of the order schema that describe the purchase. */
  lemma OrderItemsRule()
    ensures "items" in OrderBody && OrderBody["items"] == Spec(true, IdList)
    ensures "payment" in OrderBody && OrderBody["payment"] == Spec(true, OneOf(PaymentTypes))
  {
  }

  /** `validateProductBody`. */
  const ProductBody: Schema := map[
    "title" := Spec(true, Chars(2, Some(30), false)),
    "image" := Spec(false, FileRef),
    "category" := Spec(true, Chars(0, None, false)),
    "description" := Spec(true, Chars(0, None, false)),
    "price" := Spec(false, Number(true))
  ]

  /** `validateProductUpdateBody`. */
  const ProductUpdateBody: Schema := map[
    "title" := Spec(false, Chars(2, Some(30), false)),
    "image" := Spec(false, FileRef),
    "category" := Spec(false, Chars(0, None, false)),
    "description" := Spec(false, Chars(0, None, false)),
    "price" := Spec(false, Number(true))
  ]

  /** `validateObjId`, over the route parameters. */
  const ObjIdParams: Schema := map["productId" := Spec(true, Id)]

  /** `validateUserBody`. */
  const UserBody: Schema := map[
    "name" := Spec(false, Chars(2, Some(30), false)),
    "password" := Spec(true, Chars(6, None, false)),
    "email" := Spec(true, Email)
  ]

  /** `validateAuthentication`. */
  const AuthenticationBody: Schema := map[
    "email" := Spec(true, Email),
    "password" := Spec(true, Chars(0, None, false))
  ]

  /** A required key of a body that passed is present, and its converted value passes the key's rule. */
  lemma RequiredFieldPasses(schema: Schema, body: Json, ck: Checkers, key: string)
    requires Validate(schema, body, ck).Ok? && key in schema && schema[key].required
    ensures key in body.fields && key in Validate(schema, body, ck).value
    ensures Accepts(schema[key].rule, body.fields[key], ck)
    ensures Accepts(schema[key].rule, Validate(schema, body, ck).value[key], ck)
  {
  }

  /**
   * What an order body that passed holds: a non-empty list of object ids, a known payment
   * method, an email, the normalised phone number (which passes the pattern), a non-empty
   * address and a numeric total; a comment, if any, is a string and may be empty.
   */
  lemma {:induction false} OrderBodyGuarantees(body: Json, ck: Checkers)
    requires Validate(OrderBody, body, ck).Ok?
    ensures var out := Validate(OrderBody, body, ck).value;
      && "items" in out && out["items"].JArr? && |out["items"].items| >= 1
      && (forall i :: 0 <= i < |out["items"].items| ==> IsIdText(out["items"].items[i], ck))
      && "payment" in out && out["payment"].JStr? && out["payment"].s in PaymentTypes
      && "email" in out && NonEmptyText(out["email"]) && ck.isEmail(out["email"].s)
      && "phone" in out && body.fields["phone"].JStr?
      && out["phone"] == JStr(NormalizePhone(body.fields["phone"].s)) && PhoneOk(out["phone"].s)
      && "address" in out && NonEmptyText(out["address"])
      && "total" in out && out["total"].JNum? && SafeNumber(out["total"].n)
      && ("comment" in out ==> out["comment"].JStr?)
  {
    OrderItemsAndPayment(body, ck);
    OrderContact(body, ck);
    OrderTotalAndComment(body, ck);
  }

  /** The items of an order that passed are a non-empty id list, and its payment method is a known one. */
  lemma {:induction false} OrderItemsAndPayment(body: Json, ck: Checkers)
    requires Validate(OrderBody, body, ck).Ok?
    ensures var out := Validate(OrderBody, body, ck).value;
      && "items" in out && out["items"].JArr? && |out["items"].items| >= 1
      && (forall i :: 0 <= i < |out["items"].items| ==> IsIdText(out["items"].items[i], ck))
      && "payment" in out && out["payment"].JStr? && out["payment"].s in PaymentTypes
  {
    var out := Validate(OrderBody, body, ck).value;
    assert "items" in out && Accepts(IdList, out["items"], ck) by {
      OrderItemsRule();
      RequiredFieldPasses(OrderBody, body, ck, "items");
    }
    assert "payment" in out && out["payment"].JStr? && out["payment"].s in PaymentTypes by {
      assert Accepts(OneOf(PaymentTypes), out["payment"], ck) by {
        OrderItemsRule();
        RequiredFieldPasses(OrderBody, body, ck, "payment");
      }
    }
  }

  /** An order that passed carries an email, the normalised phone number and a non-empty address. */
  lemma {:induction false} OrderContact(body: Json, ck: Checkers)
    requires Validate(OrderBody, body, ck).Ok?
    ensures var out := Validate(OrderBody, body, ck).value;
      && "email" in out && NonEmptyText(out["email"]) && ck.isEmail(out["email"].s)
      && "phone" in out && body.fields["phone"].JStr?
      && out["phone"] == JStr(NormalizePhone(body.fields["phone"].s)) && PhoneOk(out["phone"].s)
      && "address" in out && NonEmptyText(out["address"])
  {
    var out := Validate(OrderBody, body, ck).value;
    assert "email" in out && Accepts(Email, out["email"], ck) by {
      OrderBodyRules();
      RequiredFieldPasses(OrderBody, body, ck, "email");
    }
    assert "phone" in body.fields && Accepts(Phone, body.fields["phone"], ck) && "phone" in out
        && out["phone"] == JStr(NormalizePhone(body.fields["phone"].s)) by {
      OrderBodyRules();
      RequiredFieldPasses(OrderBody, body, ck, "phone");
    }
    assert "address" in out && Accepts(Chars(0, None, false), out["address"], ck) by {
      OrderBodyRules();
      RequiredFieldPasses(OrderBody, body, ck, "address");
    }
  }

  /** The phone an order that passed carries is already normal: normalising it again changes nothing. */
  lemma {:induction false} ValidatedPhoneIsNormal(body: Json, ck: Checkers)
    requires Validate(OrderBody, body, ck).Ok?
    ensures var out := Validate(OrderBody, body, ck).value;
      && "phone" in out && out["phone"].JStr? && "phone" in body.fields && body.fields["phone"].JStr?
      && out["phone"].s == NormalizePhone(body.fields["phone"].s)
      && NormalizePhone(out["phone"].s) == out["phone"].s && PhoneOk(out["phone"].s)
  {
    OrderContact(body, ck);
    NormalizePhoneIdempotent(body.fields["phone"].s);
  }

  /** An order that passed has a numeric total, and its comment, if any, is a string. */
  lemma {:induction false} OrderTotalAndComment(body: Json, ck: Checkers)
    requires Validate(OrderBody, body, ck).Ok?
    ensures var out := Validate(OrderBody, body, ck).value;
      && "total" in out && out["total"].JNum? && SafeNumber(out["total"].n)
      && ("comment" in out ==> out["comment"].JStr?)
  {
    var out := Validate(OrderBody, body, ck).value;
    OrderBodyRules();
    RequiredFieldPasses(OrderBody, body, ck, "total");
    assert out["total"] == Converted(Number(false), body.fields["total"], ck);
  }

  /**
   * A total beyond the safe integers is refused (`number.unsafe`), whether it is sent as a
   * number or as text: `9007199254740993` is one such value.
   */
  lemma {:induction false} UnsafeTotalRefused(body: Json, ck: Checkers)
    requires body.JObj? && "total" in body.fields
    requires var t := body.fields["total"];
      || (t.JNum? && !SafeNumber(t.n))
      || (t.JStr? && ck.toNumber(t.s).Some? && !SafeNumber(ck.toNumber(t.s).value))
    ensures Validate(OrderBody, body, ck) == Err(BadRequest)
  {
    assert !Accepts(OrderBody["total"].rule, body.fields["total"], ck) by {
      OrderBodyRules();
    }
  }

  /** An empty comment is allowed, and so is leaving the comment out. */
  lemma {:induction false} OrderCommentOptional(body: Json, ck: Checkers)
    requires Validate(OrderBody, body, ck).Ok?
    ensures Validate(OrderBody, JObj(body.fields["comment" := JStr("")]), ck).Ok?
    ensures Validate(OrderBody, JObj(body.fields - {"comment"}), ck).Ok?
  {
    OrderBodyRules();
    OptionalFieldChanges(OrderBody, body, ck, "comment", JStr(""));
  }

  /** An optional key may be dropped, or set to any value its rule accepts, without failing the schema. */
  lemma OptionalFieldChanges(schema: Schema, body: Json, ck: Checkers, key: string, v: Json)
    requires Validate(schema, body, ck).Ok? && key in schema && !schema[key].required
    requires Accepts(schema[key].rule, v, ck)
    ensures Validate(schema, JObj(body.fields[key := v]), ck).Ok?
    ensures Validate(schema, JObj(body.fields - {key}), ck).Ok?
  {
    assert SchemaAccepts(schema, body, ck);
    var changed := body.fields[key := v];
    forall k | k in changed && k in schema ensures Accepts(schema[k].rule, changed[k], ck) {
      if k != key {
        assert changed[k] == body.fields[k];
      }
    }
    assert SchemaAccepts(schema, JObj(changed), ck);
    var dropped := body.fields - {key};
    forall k | k in dropped && k in schema ensures Accepts(schema[k].rule, dropped[k], ck) {
      assert dropped[k] == body.fields[k];
    }
    assert SchemaAccepts(schema, JObj(dropped), ck);
  }

  /** A product that passed has a title of 2 to 30 code units, a category, a description, and a price that is a number or null. */
  lemma {:induction false} ProductBodyGuarantees(body: Json, ck: Checkers)
    requires Validate(ProductBody, body, ck).Ok?
    ensures var out := Validate(ProductBody, body, ck).value;
      && "title" in out && out["title"].JStr? && 2 <= JsText.Utf16Length(out["title"].s) <= 30
      && "category" in out && NonEmptyText(out["category"])
      && "description" in out && NonEmptyText(out["description"])
      && ("price" in out ==> out["price"].JNull? || (out["price"].JNum? && SafeNumber(out["price"].n)))
  {
    var out := Validate(ProductBody, body, ck).value;
    assert "title" in out && Accepts(Chars(2, Some(30), false), out["title"], ck) by {
      ProductBodyRules();
      RequiredFieldPasses(ProductBody, body, ck, "title");
    }
    assert "category" in out && Accepts(Chars(0, None, false), out["category"], ck) by {
      ProductBodyRules();
      RequiredFieldPasses(ProductBody, body, ck, "category");
    }
    assert "description" in out && Accepts(Chars(0, None, false), out["description"], ck) by {
      ProductBodyRules();
      RequiredFieldPasses(ProductBody, body, ck, "description");
    }
    if "price" in out {
      ProductBodyRules();
      PresentFieldPasses(ProductBody, body, ck, "price");
    }
  }

  /** The rule and requiredness of each key of the product schemas. */
  lemma ProductBodyRules()
    ensures ProductBody.Keys == ProductUpdateBody.Keys == {"title", "image", "category", "description", "price"}
    ensures ProductBody["title"] == Spec(true, Chars(2, Some(30), false)) && ProductBody["image"] == Spec(false, FileRef)
    ensures ProductBody["category"] == Spec(true, Chars(0, None, false)) && ProductBody["description"] == Spec(true, Chars(0, None, false))
    ensures ProductBody["price"] == Spec(false, Number(true))
    ensures forall k :: k in ProductUpdateBody ==> ProductUpdateBody[k] == ProductBody[k].(required := false)
  {
  }

  /** A key a body that passed carries is in the schema, and its value passes and is converted by the key's rule. */
  lemma PresentFieldPasses(schema: Schema, body: Json, ck: Checkers, key: string)
    requires Validate(schema, body, ck).Ok? && key in body.fields
    ensures key in schema && key in Validate(schema, body, ck).value
    ensures Accepts(schema[key].rule, body.fields[key], ck)
    ensures Validate(schema, body, ck).value[key] == Converted(schema[key].rule, body.fields[key], ck)
  {
  }

  /** `loose` names the same keys with the same rules as `strict`, and requires no key `strict` leaves optional. */
  predicate Relaxes(loose: Schema, strict: Schema)
  {
    loose.Keys == strict.Keys &&
    forall k :: k in loose ==> loose[k].rule == strict[k].rule && (loose[k].required ==> strict[k].required)
  }

  /** A relaxed schema accepts every body the stricter one accepts. */
  lemma RelaxedSchemaAccepts(loose: Schema, strict: Schema, body: Json, ck: Checkers)
    requires Relaxes(loose, strict)
    ensures Validate(strict, body, ck).Ok? ==> Validate(loose, body, ck).Ok?
  {
  }

  /** The update schema relaxes the create schema, and requires nothing at all. */
  lemma ProductUpdateIsRelaxed()
    ensures Relaxes(ProductUpdateBody, ProductBody)
    ensures forall k :: k in ProductUpdateBody ==> !ProductUpdateBody[k].required
  {
    ProductBodyRules();
  }

  /** The update schema is the create schema with every field optional: it accepts all the create schema accepts, and the empty body. */
  lemma {:induction false} ProductUpdateRelaxesCreate(body: Json, ck: Checkers)
    ensures Validate(ProductBody, body, ck).Ok? ==> Validate(ProductUpdateBody, body, ck).Ok?
    ensures Validate(ProductUpdateBody, JObj(map[]), ck).Ok?
  {
    ProductUpdateIsRelaxed();
    RelaxedSchemaAccepts(ProductUpdateBody, ProductBody, body, ck);
    assert SchemaAccepts(ProductUpdateBody, JObj(map[]), ck);
  }

  /** An update that carries a title carries one of 2 to 30 code units. */
  lemma {:induction false} ProductUpdateTitleBound(body: Json, ck: Checkers)
    requires Validate(ProductUpdateBody, body, ck).Ok? && "title" in body.fields
    ensures body.fields["title"].JStr? && 2 <= JsText.Utf16Length(body.fields["title"].s) <= 30
  {
    ProductBodyRules();
    PresentFieldPasses(ProductUpdateBody, body, ck, "title");
  }

  /** A user body that passed has a password of at least 6 code units, an email, and a name of 2 to 30 code units if any. */
  lemma {:induction false} UserBodyGuarantees(body: Json, ck: Checkers)
    requires Validate(UserBody, body, ck).Ok?
    ensures "password" in body.fields && body.fields["password"].JStr? && JsText.Utf16Length(body.fields["password"].s) >= 6
    ensures "email" in body.fields && ck.isEmail(body.fields["email"].s)
    ensures "name" in body.fields ==> body.fields["name"].JStr? && 2 <= JsText.Utf16Length(body.fields["name"].s) <= 30
  {
    assert "password" in body.fields && Accepts(Chars(6, None, false), body.fields["password"], ck) by {
      UserBodyRules();
      RequiredFieldPasses(UserBody, body, ck, "password");
    }
    assert "email" in body.fields && Accepts(Email, body.fields["email"], ck) by {
      UserBodyRules();
      RequiredFieldPasses(UserBody, body, ck, "email");
    }
    if "name" in body.fields {
      assert Accepts(Chars(2, Some(30), false), body.fields["name"], ck) by {
        UserBodyRules();
        PresentFieldPasses(UserBody, body, ck, "name");
      }
    }
  }

  /** The entries of the user schema. */
  lemma UserBodyRules()
    ensures UserBody.Keys == {"name", "password", "email"}
    ensures UserBody["name"] == Spec(false, Chars(2, Some(30), false))
    ensures UserBody["password"] == Spec(true, Chars(6, None, false)) && UserBody["email"] == Spec(true, Email)
  {
  }

  /**
   * The sign-in schema bounds no password length: a one-character password passes it,
   * while the user schema refuses the same body.
   */
  lemma {:induction false} AuthenticationHasNoLengthBound(email: string, ck: Checkers)
    requires email != "" && ck.isEmail(email)
    ensures var body := JObj(map["email" := JStr(email), "password" := JStr("x")]);
      Validate(AuthenticationBody, body, ck).Ok? && Validate(UserBody, body, ck).Err?
  {
    var body := JObj(map["email" := JStr(email), "password" := JStr("x")]);
    assert body.fields.Keys == {"email", "password"};
    assert !Accepts(UserBody["password"].rule, body.fields["password"], ck);
  }
}
