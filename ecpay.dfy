/** The ECPay payment adapter: the CheckMacValue integrity code, the signed parameter set of a
    checkout request, and the transaction/order status changes made on creation and on callback. */
module Ecpay {
  import opened Wrappers
  import opened Text
  import opened Seqs
  import opened Entities

  // ---------------------------------------------------------------------------------------------
  // Integrity code

  /** A form field: key and value. A parameter set is a dictionary, kept in insertion order. */
  type Param = (string, string)

  /** A one-way digest with 16-byte output, standing for MD5. */
  type Md5 = f: seq<byte> -> seq<byte> | forall s :: |f(s)| == 16
    witness (s: seq<byte>) => [0, 0, 0, 0, 0, 0, 0, 0, 0, 0, 0, 0, 0, 0, 0, 0]

  /** What the code needs besides the parameters: the shared secrets, the comparer `OrderBy` uses on
      keys, `WebUtility.UrlEncode` and MD5. */
  datatype MacConfig = MacConfig(
    hashKey: string,
    hashIv: string,
    keyLeq: (string, string) -> bool,
    urlEncode: string -> string,
    md5: Md5)

  const CheckMacKey := "CheckMacValue"

  function Keys(ps: seq<Param>): (ks: seq<string>)
    ensures |ks| == |ps| && forall i :: 0 <= i < |ps| ==> ks[i] == ps[i].0
  {
    seq(|ps|, i requires 0 <= i < |ps| => ps[i].0)
  }

  /** The value stored under `k`, or None. */
  function Lookup(ps: seq<Param>, k: string): (r: Option<string>)
    ensures r.None? <==> k !in Keys(ps)
    ensures r.Some? ==> (k, r.value) in ps
  {
    if ps == [] then None
    else if ps[0].0 == k then Some(ps[0].1)
    else
      Lookup(ps[1..], k)
  }

  /** `parameters[k] = v`: overwrite the entry with key `k` in place, or append one. */
  function SetParam(ps: seq<Param>, k: string, v: string): (r: seq<Param>)
    ensures k in Keys(ps) ==> Keys(r) == Keys(ps)
    ensures k !in Keys(ps) ==> Keys(r) == Keys(ps) + [k]
    ensures forall j :: j != k ==> Lookup(r, j) == Lookup(ps, j)
  {
    if ps == [] then [(k, v)]
    else
      KeysTail(ps);
      if ps[0].0 == k then
        var r := [(k, v)] + ps[1..];
        KeysTail(r);
        assert r[1..] == ps[1..];
        r
      else
        var rest := SetParam(ps[1..], k, v);
        var r := [ps[0]] + rest;
        KeysTail(r);
        assert r[1..] == rest;
        r
  }

  /** After `parameters[k] = v`, looking `k` up gives `v`. */
  lemma {:induction false} SetParamStores(ps: seq<Param>, k: string, v: string)
    ensures Lookup(SetParam(ps, k, v), k) == Some(v)
  {
    if ps != [] && ps[0].0 != k {
      var r := SetParam(ps, k, v);
      assert r[0] == ps[0] && r[1..] == SetParam(ps[1..], k, v);
      SetParamStores(ps[1..], k, v);
    }
  }

  lemma KeysTail(ps: seq<Param>)
    requires ps != []
    ensures Keys(ps) == [ps[0].0] + Keys(ps[1..])
  {
  }

  /** The `Where` step: drop the CheckMacValue entry and every entry with an empty value. */
  function Signed(ps: seq<Param>): (r: seq<Param>)
    ensures forall i :: 0 <= i < |r| ==> r[i].0 != CheckMacKey && r[i].1 != ""
    ensures forall p :: p in ps && p.0 != CheckMacKey && p.1 != "" <==> p in r
  {
    if ps == [] then []
    else
      var rest := Signed(ps[1..]);
      assert forall p :: p in ps <==> p == ps[0] || p in ps[1..];
      if ps[0].0 != CheckMacKey && ps[0].1 != "" then [ps[0]] + rest else rest
  }

  /** The order `OrderBy(p => p.Key)` sorts by. */
  function ByKey(keyLeq: (string, string) -> bool): (Param, Param) -> bool {
    (p: Param, q: Param) => keyLeq(p.0, q.0)
  }

  /** `string.Join("&", ps.Select(p => $"{p.Key}={p.Value}"))`. */
  function JoinPairs(ps: seq<Param>): string {
    if ps == [] then ""
    else if |ps| == 1 then ps[0].0 + "=" + ps[0].1
    else ps[0].0 + "=" + ps[0].1 + "&" + JoinPairs(ps[1..])
  }

  /** The signed pairs in key order. */
  function Canonical(ps: seq<Param>, keyLeq: (string, string) -> bool): seq<Param> {
    SortBy(Signed(ps), ByKey(keyLeq))
  }

  /** The text before encoding: `HashKey=<key>&k1=v1&...&kn=vn&HashIV=<iv>`. */
  function RawString(ps: seq<Param>, cfg: MacConfig): (r: string)
    ensures StartsWith(r, "HashKey=" + cfg.hashKey + "&")
    ensures EndsWith(r, "&HashIV=" + cfg.hashIv)
  {
    var prefix := "HashKey=" + cfg.hashKey + "&";
    var suffix := "&HashIV=" + cfg.hashIv;
    var r := prefix + JoinPairs(Canonical(ps, cfg.keyLeq)) + suffix;
    assert r[..|prefix|] == prefix;
    assert r[|r| - |suffix|..] == suffix;
    r
  }

  /** The text fed to the digest: URL-encoded, then lower-cased. */
  function DigestInput(ps: seq<Param>, cfg: MacConfig): (r: string)
    ensures forall i :: 0 <= i < |r| ==> !IsAsciiUpper(r[i])
  {
    ToLower(cfg.urlEncode(RawString(ps, cfg)))
  }

  function HexDigit(d: int): (c: char)
    requires 0 <= d < 16
  {
    "0123456789ABCDEF"[d]
  }

  predicate IsUpperHexDigit(c: char) { '0' <= c <= '9' || 'A' <= c <= 'F' }

  function HexPair(b: byte): (r: string)
    ensures |r| == 2 && IsUpperHexDigit(r[0]) && IsUpperHexDigit(r[1])
  {
    [HexDigit(b as int / 16), HexDigit(b as int % 16)]
  }

  /** Upper-case hexadecimal, two digits per byte. */
  function Hex(bs: seq<byte>): (r: string)
    ensures |r| == 2 * |bs|
    ensures forall i :: 0 <= i < |r| ==> IsUpperHexDigit(r[i])
  {
    if bs == [] then "" else HexPair(bs[0]) + Hex(bs[1..])
  }

  /** `BitConverter.ToString(bytes)`: hex pairs separated by '-', as in "0A-1B-2C". */
  function BitConverterString(bs: seq<byte>): string {
    if bs == [] then ""
    else if |bs| == 1 then HexPair(bs[0])
    else HexPair(bs[0]) + "-" + BitConverterString(bs[1..])
  }

  /** `s.Replace("-", "")`. */
  function RemoveDashes(s: string): (r: string)
    ensures '-' !in r
  {
    if s == [] then "" else (if s[0] == '-' then "" else [s[0]]) + RemoveDashes(s[1..])
  }

  lemma {:induction false} RemoveDashesAppend(a: string, b: string)
    ensures RemoveDashes(a + b) == RemoveDashes(a) + RemoveDashes(b)
  {
    if a == [] {
      assert a + b == b;
    } else {
      assert (a + b)[0] == a[0] && (a + b)[1..] == a[1..] + b;
      RemoveDashesAppend(a[1..], b);
    }
  }

  lemma RemoveDashesOfHexPair(b: byte)
    ensures RemoveDashes(HexPair(b)) == HexPair(b)
  {
    var h := HexPair(b);
    assert h[0] != '-' && h[1] != '-';
    assert h[1..][1..] == [];
    assert RemoveDashes(h[1..]) == [h[1]] + RemoveDashes([]);
  }

  /** `BitConverter.ToString(hash).Replace("-", "").ToUpper()` is plain upper-case hex of the bytes. */
  lemma {:induction false} DigestTextIsHex(bs: seq<byte>)
    ensures ToUpper(RemoveDashes(BitConverterString(bs))) == Hex(bs)
  {
    UndashedIsHex(bs);
    var h := Hex(bs);
    assert forall i :: 0 <= i < |h| ==> !IsAsciiLower(h[i]);
  }

  lemma {:induction false} UndashedIsHex(bs: seq<byte>)
    ensures RemoveDashes(BitConverterString(bs)) == Hex(bs)
  {
    if bs != [] {
      RemoveDashesOfHexPair(bs[0]);
      if |bs| == 1 {
        assert Hex(bs) == HexPair(bs[0]) + Hex([]);
      } else {
        UndashedIsHex(bs[1..]);
        RemoveDashesAppend(HexPair(bs[0]) + "-", BitConverterString(bs[1..]));
        RemoveDashesAppend(HexPair(bs[0]), "-");
      }
    }
  }

  /** GenerateCheckMacValue: 32 upper-case hex digits, the digest of the lower-cased, URL-encoded
      canonical string. */
  function CheckMacValue(ps: seq<Param>, cfg: MacConfig): (code: string)
    ensures |code| == 32
    ensures forall i :: 0 <= i < |code| ==> IsUpperHexDigit(code[i])
    ensures code == Hex(cfg.md5(Utf8(DigestInput(ps, cfg))))
  {
    var hash := cfg.md5(Utf8(DigestInput(ps, cfg)));
    DigestTextIsHex(hash);
    ToUpper(RemoveDashes(BitConverterString(hash)))
  }

  /** Setting the CheckMacValue entry does not change the pairs that are signed. */
  lemma {:induction false} SignedIgnoresCheckMac(ps: seq<Param>, v: string)
    ensures Signed(SetParam(ps, CheckMacKey, v)) == Signed(ps)
  {
    if ps != [] && ps[0].0 != CheckMacKey {
      SignedIgnoresCheckMac(ps[1..], v);
      assert SetParam(ps, CheckMacKey, v)[1..] == SetParam(ps[1..], CheckMacKey, v);
    }
  }

  /** The code is the same whether or not a CheckMacValue entry is present, whatever its value. */
  lemma CheckMacIgnoresCheckMac(ps: seq<Param>, v: string, cfg: MacConfig)
    ensures CheckMacValue(SetParam(ps, CheckMacKey, v), cfg) == CheckMacValue(ps, cfg)
  {
    SignedIgnoresCheckMac(ps, v);
  }

  /** An entry with an empty value never contributes to the code. */
  lemma {:induction false} SignedIgnoresEmpty(ps: seq<Param>, k: string)
    ensures Signed(ps + [(k, "")]) == Signed(ps)
  {
    if ps == [] {
      assert Signed([(k, "")]) == [] + Signed([]);
    } else {
      assert (ps + [(k, "")])[1..] == ps[1..] + [(k, "")];
      SignedIgnoresEmpty(ps[1..], k);
    }
  }

  /** The total preorder on keys orders the signed pairs by key. */
  lemma CanonicalSortedByKey(ps: seq<Param>, keyLeq: (string, string) -> bool)
    requires TotalPreorder(keyLeq)
    ensures forall i, j :: 0 <= i < j < |Canonical(ps, keyLeq)| ==>
      keyLeq(Canonical(ps, keyLeq)[i].0, Canonical(ps, keyLeq)[j].0)
    ensures multiset(Canonical(ps, keyLeq)) == multiset(Signed(ps))
  {
    var leq := ByKey(keyLeq);
    assert forall p: Param, q: Param :: leq(p, q) == keyLeq(p.0, q.0);
    assert TotalPreorder(leq);
    SortBySorted(Signed(ps), leq);
  }

  // ---------------------------------------------------------------------------------------------
  // Checkout request

  /** The twelve keys of a checkout request, in the order they are added. */
  const PaymentKeys: seq<string> := [
    "MerchantID", "MerchantTradeNo", "MerchantTradeDate", "PaymentType", "TotalAmount",
    "TradeDesc", "ItemName", "ReturnURL", "ChoosePayment", "ClientBackURL",
    "NeedExtraPaidInfo", "EncryptType"]

  /** The parameter set CreatePayment builds; `tradeDate` is the clock formatted "yyyy/MM/dd HH:mm:ss".
      It exists only for a price whose `(int)` cast does not overflow. */
  function PaymentParameters(order: UserOrder, merchantId: string, tradeDate: string,
                             returnUrl: string, clientBackUrl: string): (ps: seq<Param>)
    requires CastToInt32(order.totalPrice).Some?
    ensures Keys(ps) == PaymentKeys
    ensures ps[0] == ("MerchantID", merchantId)
    ensures ps[1] == ("MerchantTradeNo", order.orderNumber)
    ensures ParseInt(ps[4].1) == Some(TruncateToInt(order.totalPrice))
  {
    var amount := CastToInt32(order.totalPrice).value;
    IntToStringRoundTrip(amount);
    [("MerchantID", merchantId),
     ("MerchantTradeNo", order.orderNumber),
     ("MerchantTradeDate", tradeDate),
     ("PaymentType", "aio"),
     ("TotalAmount", IntToString(amount)),
     ("TradeDesc", "NGO物資認購-" + order.orderNumber),
     ("ItemName", "物資認購"),
     ("ReturnURL", returnUrl),
     ("ChoosePayment", "ALL"),
     ("ClientBackURL", clientBackUrl),
     ("NeedExtraPaidInfo", "N"),
     ("EncryptType", "1")]
  }

  /** The parameter set with its code attached. */
  function SignedPaymentParameters(order: UserOrder, merchantId: string, tradeDate: string,
                                   returnUrl: string, clientBackUrl: string, cfg: MacConfig): seq<Param>
    requires CastToInt32(order.totalPrice).Some?
  {
    var ps := PaymentParameters(order, merchantId, tradeDate, returnUrl, clientBackUrl);
    SetParam(ps, CheckMacKey, CheckMacValue(ps, cfg))
  }

  /** The outbound form holds exactly the twelve keys and then CheckMacValue; the attached code is
      the code of the twelve, and recomputing it over the whole form (as the gateway does) gives it back. */
  lemma SignedPaymentParametersShape(order: UserOrder, merchantId: string, tradeDate: string,
                                     returnUrl: string, clientBackUrl: string, cfg: MacConfig)
    requires CastToInt32(order.totalPrice).Some?
    ensures var ps := PaymentParameters(order, merchantId, tradeDate, returnUrl, clientBackUrl);
            var form := SignedPaymentParameters(order, merchantId, tradeDate, returnUrl, clientBackUrl, cfg);
            && form == ps + [(CheckMacKey, CheckMacValue(ps, cfg))]
            && Keys(form) == PaymentKeys + [CheckMacKey]
            && CheckMacValue(form, cfg) == CheckMacValue(ps, cfg)
  {
    var ps := PaymentParameters(order, merchantId, tradeDate, returnUrl, clientBackUrl);
    CheckMacKeyNotAPaymentKey();
    AppendWhenAbsent(ps, CheckMacKey, CheckMacValue(ps, cfg));
    CheckMacIgnoresCheckMac(ps, CheckMacValue(ps, cfg), cfg);
  }

  lemma CheckMacKeyNotAPaymentKey()
    ensures CheckMacKey !in PaymentKeys
  {
    forall i | 0 <= i < |PaymentKeys| ensures PaymentKeys[i] != CheckMacKey {
      assert |PaymentKeys[i]| != |CheckMacKey| || PaymentKeys[i][1] != CheckMacKey[1] || PaymentKeys[i][2] != CheckMacKey[2];
    }
  }

  lemma {:induction false} AppendWhenAbsent(ps: seq<Param>, k: string, v: string)
    requires k !in Keys(ps)
    ensures SetParam(ps, k, v) == ps + [(k, v)]
  {
    if ps != [] {
      KeysTail(ps);
      assert ps[0].0 != k;
      AppendWhenAbsent(ps[1..], k, v);
      assert SetParam(ps, k, v) == [ps[0]] + (ps[1..] + [(k, v)]);
      assert ps == [ps[0]] + ps[1..];
    }
  }

  // ---------------------------------------------------------------------------------------------
  // Transactions and callbacks

  datatype TxStatus = Pending | Processing | Success | Failed

  /** A row of table EcpayTransactions; `responseData` holds the raw callback fields. */
  datatype EcpayTransaction = EcpayTransaction(
    userOrderId: int,
    ecpayTradeNo: Option<string>,
    status: TxStatus,
    responseData: Option<map<string, string>>,
    createdDateTime: Instant)

  const PaidStatus := "已付款"
  const PaymentFailedStatus := "付款失敗"

  /** The two tables a callback touches. */
  datatype Books = Books(orders: seq<UserOrder>, transactions: seq<EcpayTransaction>)

  function FindOrder(orders: seq<UserOrder>, tradeNo: string): Option<nat> {
    FirstIndex(orders, (o: UserOrder) => o.orderNumber == tradeNo)
  }

  function FindTransaction(txs: seq<EcpayTransaction>, tradeNo: string): Option<nat> {
    FirstIndex(txs, (t: EcpayTransaction) => t.ecpayTradeNo == Some(tradeNo))
  }

  function Field(fields: map<string, string>, k: string): Option<string> {
    if k in fields then Some(fields[k]) else None
  }

  /** The order and transaction a callback is about, when both exist. */
  function CallbackTarget(b: Books, fields: map<string, string>): Option<(nat, nat)> {
    var tradeNo := Field(fields, "MerchantTradeNo");
    if IsNullOrEmpty(tradeNo) then None
    else
      match (FindOrder(b.orders, tradeNo.value), FindTransaction(b.transactions, tradeNo.value))
      case (Some(oi), Some(ti)) => Some((oi, ti))
      case _ => None
  }

  /** ProcessCallback as a function of the tables: the new tables and the value returned. No
      CheckMacValue is recomputed and the current status is not consulted. */
  function Settle(b: Books, fields: map<string, string>): (r: (Books, bool))
    ensures CallbackTarget(b, fields).None? ==> r == (b, false)
    ensures r.1 <==> CallbackTarget(b, fields).Some? && Field(fields, "RtnCode") == Some("1")
    ensures |r.0.orders| == |b.orders| && |r.0.transactions| == |b.transactions|
    ensures CallbackTarget(b, fields).Some? ==>
      var (oi, ti) := CallbackTarget(b, fields).value;
      && oi < |b.orders| && ti < |b.transactions|
      && r.0.orders[oi].paymentStatus == (if r.1 then PaidStatus else PaymentFailedStatus)
      && r.0.transactions[ti].status == (if r.1 then Success else Failed)
      && r.0.transactions[ti].responseData == Some(fields)
      && r.0.orders[oi] == b.orders[oi].(paymentStatus := r.0.orders[oi].paymentStatus)
      && r.0.transactions[ti] == b.transactions[ti].(status := r.0.transactions[ti].status, responseData := Some(fields))
      && (forall j :: 0 <= j < |b.orders| && j != oi ==> r.0.orders[j] == b.orders[j])
      && (forall j :: 0 <= j < |b.transactions| && j != ti ==> r.0.transactions[j] == b.transactions[j])
  {
    match CallbackTarget(b, fields)
    case None => (b, false)
    case Some((oi, ti)) =>
      var tradeNo := Field(fields, "MerchantTradeNo").value;
      assert FindOrder(b.orders, tradeNo) == Some(oi);
      assert FindTransaction(b.transactions, tradeNo) == Some(ti);
      var ok := Field(fields, "RtnCode") == Some("1");
      var tx := b.transactions[ti].(responseData := Some(fields), status := if ok then Success else Failed);
      var order := b.orders[oi].(paymentStatus := if ok then PaidStatus else PaymentFailedStatus);
      (Books(b.orders[oi := order], b.transactions[ti := tx]), ok)
  }

  /** Nothing checks the signature: the outcome does not depend on the CheckMacValue field. */
  lemma SettleIgnoresSignature(b: Books, fields: map<string, string>, forged: string)
    requires CheckMacKey in fields
    ensures var r := Settle(b, fields);
            var r' := Settle(b, fields[CheckMacKey := forged]);
            && r'.1 == r.1
            && (forall j :: 0 <= j < |b.orders| ==> r'.0.orders[j] == r.0.orders[j])
            && (forall j :: 0 <= j < |b.transactions| ==> r'.0.transactions[j].status == r.0.transactions[j].status)
  {
    var f' := fields[CheckMacKey := forged];
    assert Field(f', "MerchantTradeNo") == Field(fields, "MerchantTradeNo");
    assert Field(f', "RtnCode") == Field(fields, "RtnCode");
    assert CallbackTarget(b, f') == CallbackTarget(b, fields);
  }

  /** Terminal states are not protected: after a successful callback, a later failing callback for
      the same order number turns the transaction Failed and the order 付款失敗. */
  lemma LaterCallbackOverwrites(b: Books, paid: map<string, string>, failed: map<string, string>)
    requires CallbackTarget(b, paid).Some? && Settle(b, paid).1
    requires Field(failed, "MerchantTradeNo") == Field(paid, "MerchantTradeNo")
    requires Field(failed, "RtnCode") != Some("1")
    ensures var b1 := Settle(b, paid).0;
            var (b2, ok) := Settle(b1, failed);
            var (oi, ti) := CallbackTarget(b, paid).value;
            && b1.transactions[ti].status == Success && b1.orders[oi].paymentStatus == PaidStatus
            && !ok && b2.transactions[ti].status == Failed && b2.orders[oi].paymentStatus == PaymentFailedStatus
  {
    var b1 := Settle(b, paid).0;
    var (oi, ti) := CallbackTarget(b, paid).value;
    var tradeNo := Field(paid, "MerchantTradeNo").value;
    assert FindOrder(b.orders, tradeNo) == Some(oi);
    assert FindTransaction(b.transactions, tradeNo) == Some(ti);
    SettleKeepsTarget(b, paid, tradeNo);
    assert CallbackTarget(b1, failed) == Some((oi, ti));
  }

  /** A settled callback leaves the matched rows where a second callback with the same number finds them. */
  lemma SettleKeepsTarget(b: Books, fields: map<string, string>, tradeNo: string)
    requires Field(fields, "MerchantTradeNo") == Some(tradeNo) && tradeNo != ""
    requires CallbackTarget(b, fields).Some?
    ensures FindOrder(Settle(b, fields).0.orders, tradeNo) == FindOrder(b.orders, tradeNo)
    ensures FindTransaction(Settle(b, fields).0.transactions, tradeNo) == FindTransaction(b.transactions, tradeNo)
  {
    var b1 := Settle(b, fields).0;
    var (oi, ti) := CallbackTarget(b, fields).value;
    assert FindOrder(b.orders, tradeNo) == Some(oi);
    assert FindTransaction(b.transactions, tradeNo) == Some(ti);
    assert b1.orders[oi].orderNumber == tradeNo;
    assert b1.transactions[ti].ecpayTradeNo == Some(tradeNo);
    FirstIndexStable(b.orders, b1.orders, oi, (o: UserOrder) => o.orderNumber == tradeNo);
    FirstIndexStable(b.transactions, b1.transactions, ti, (t: EcpayTransaction) => t.ecpayTradeNo == Some(tradeNo));
  }

  lemma MarkLast(txs: seq<EcpayTransaction>, pending: EcpayTransaction, started: EcpayTransaction)
    ensures (txs + [pending])[|txs| := started] == txs + [started]
  {
  }

  /** The adapter's state: the orders and transactions tables, and its configuration. */
  class EcpayService {
    const merchantId: string
    const config: MacConfig
    var orders: seq<UserOrder>
    var transactions: seq<EcpayTransaction>

    constructor (merchantId: string, config: MacConfig, orders: seq<UserOrder>, transactions: seq<EcpayTransaction>)
      ensures this.merchantId == merchantId && this.config == config
      ensures this.orders == orders && this.transactions == transactions
    {
      this.merchantId := merchantId;
      this.config := config;
      this.orders := orders;
      this.transactions := transactions;
    }

    /** CreatePayment: adds a Pending transaction for the order, builds and signs the request, then
        marks the transaction Processing with the order number as its trade number. Returns the form
        fields (rendering them as HTML is not modelled). When the `(int)` cast of the price
        overflows, the call throws after the Pending row is saved: None, and the row stays Pending. */
    method CreatePayment(order: UserOrder, returnUrl: string, clientBackUrl: string,
                         now: Instant, tradeDate: string) returns (form: Option<seq<Param>>)
      modifies this
      ensures orders == old(orders)
      ensures form.Some? <==> CastToInt32(order.totalPrice).Some?
      ensures form.Some? ==>
        && transactions == old(transactions) +
             [EcpayTransaction(order.userOrderId, Some(order.orderNumber), Processing, None, now)]
        && form.value == SignedPaymentParameters(order, merchantId, tradeDate, returnUrl, clientBackUrl, config)
      ensures form.None? ==>
        transactions == old(transactions) + [EcpayTransaction(order.userOrderId, None, Pending, None, now)]
    {
      var tx := EcpayTransaction(order.userOrderId, None, Pending, None, now);
      transactions := transactions + [tx];
      if CastToInt32(order.totalPrice).None? {
        return None;
      }
      var parameters := PaymentParameters(order, merchantId, tradeDate, returnUrl, clientBackUrl);
      var checkMacValue := CheckMacValue(parameters, config);
      form := Some(SetParam(parameters, CheckMacKey, checkMacValue));
      var last := |transactions| - 1;
      var started := tx.(ecpayTradeNo := Some(order.orderNumber), status := Processing);
      MarkLast(old(transactions), tx, started);
      transactions := transactions[last := started];
    }

    /** ProcessCallback: finds the order and the transaction by MerchantTradeNo, stores the raw
        fields and sets both statuses from RtnCode. */
    method ProcessCallback(fields: map<string, string>) returns (ok: bool)
      modifies this
      ensures (Books(orders, transactions), ok) == Settle(old(Books(orders, transactions)), fields)
    {
      ghost var b0 := Books(orders, transactions);
      var merchantTradeNo := Field(fields, "MerchantTradeNo");
      var rtnCode := Field(fields, "RtnCode");
      if IsNullOrEmpty(merchantTradeNo) {
        return false;
      }
      var oi := FindOrder(orders, merchantTradeNo.value);
      var ti := FindTransaction(transactions, merchantTradeNo.value);
      if oi.None? || ti.None? {
        return false;
      }
      assert CallbackTarget(Books(orders, transactions), fields) == Some((oi.value, ti.value));
      transactions := transactions[ti.value := transactions[ti.value].(responseData := Some(fields))];
      if rtnCode == Some("1") {
        transactions := transactions[ti.value := transactions[ti.value].(status := Success)];
        orders := orders[oi.value := orders[oi.value].(paymentStatus := PaidStatus)];
      } else {
        transactions := transactions[ti.value := transactions[ti.value].(status := Failed)];
        orders := orders[oi.value := orders[oi.value].(paymentStatus := PaymentFailedStatus)];
      }
      ok := rtnCode == Some("1");
      ghost var tx := b0.transactions[ti.value].(responseData := Some(fields), status := if ok then Success else Failed);
      ghost var order := b0.orders[oi.value].(paymentStatus := if ok then PaidStatus else PaymentFailedStatus);
      assert transactions == b0.transactions[ti.value := tx];
      assert orders == b0.orders[oi.value := order];
      assert Settle(b0, fields) == (Books(orders, transactions), ok);
    }
  }
}
