/** The protocol's test utilities: time and fixed-point constants, the
    address-array encoder, and the argument normaliser of `call`/`send`. */
module ProtocolUtils {
  import opened Wrappers
  import opened JsValues
  import Text
  import EthersUtils
  import SdkPool
  import SdkHelpers

  const Day: int := 24 * 60 * 60
  const Year: int := 360 * Day
  /** `parseUnit('1')`: one unit with 18 decimals. */
  const One: int := 1_000_000_000_000_000_000

  /** The protocol's constants are the ones the SDK's accrual arithmetic uses. */
  lemma ConstantsAgree()
    ensures Day == 86400 && Year == 31104000
    ensures Year == SdkPool.Year && One == SdkPool.One
  {
  }

  /** `addresses.map(a => a.substring(2, 42)).join('')`, built from the last
      address backwards. */
  function Bodies(addresses: seq<string>): (r: string)
    ensures |r| <= 40 * |addresses|
  {
    if |addresses| == 0 then ""
    else Bodies(addresses[..|addresses| - 1]) + Text.Substring(addresses[|addresses| - 1], 2, 42)
  }

  /** `encodeAddressArray`: `0x` and the address bodies, through `hexlify`. */
  function EncodeAddressArray(addresses: seq<string>): (r: Result<string, EthersUtils.HexError>)
    ensures r.Ok? ==> |r.value| >= 2 && r.value[..2] == "0x"
  {
    EthersUtils.Hexlify("0x" + Bodies(addresses))
  }

  lemma {:induction false} BodiesAreConcat(addresses: seq<string>)
    ensures Bodies(addresses) == Text.Concat(SdkHelpers.AddressBodies(addresses))
  {
    if |addresses| > 0 {
      var init := addresses[..|addresses| - 1];
      var last := addresses[|addresses| - 1];
      BodiesAreConcat(init);
      var b := SdkHelpers.AddressBodies(addresses);
      assert b == SdkHelpers.AddressBodies(init) + [Text.Substring(last, 2, 42)];
      Text.ConcatAppend(SdkHelpers.AddressBodies(init), Text.Substring(last, 2, 42));
    }
  }

  /** The protocol's encoder and the SDK's agree on every input: the same text
      when `hexlify` accepts it, and the same `hexlify` error otherwise. */
  lemma SameAsSdk(addresses: seq<string>)
    ensures EncodeAddressArray(addresses).Ok? <==> SdkHelpers.EncodeAddressArray(addresses).Ok?
    ensures EncodeAddressArray(addresses).Ok? ==>
      EncodeAddressArray(addresses).value == SdkHelpers.EncodeAddressArray(addresses).value
    ensures EncodeAddressArray(addresses).Err? ==>
      SdkHelpers.EncodeAddressArray(addresses).error == SdkHelpers.Hex(EncodeAddressArray(addresses).error)
  {
    BodiesAreConcat(addresses);
  }

  /** `allowUndefinedArgs(args, sendOptions)`: the argument list and the
      options to pass on, or the message of the error it throws. */
  function AllowUndefinedArgs(args: JsValue, sendOptions: JsValue): (r: Result<(JsValue, JsValue), string>)
    ensures args.Arr? ==> r == Ok((args, sendOptions))
    ensures !args.Arr? && sendOptions.Undefined? ==> r == Ok((Arr([]), args))
    ensures r.Err? <==> !args.Arr? && !sendOptions.Undefined?
  {
    if !args.Arr? then
      if !sendOptions.Undefined? then Err("Args expected to be an array, got " + ToJsString(args))
      else Ok((Arr([]), args))
    else Ok((args, sendOptions))
  }

  /** The options `call` and `send` pass on: a parameter default replaces an
      omitted (`undefined`) argument with `{}`. */
  function DefaultedOptions(options: JsValue): (r: JsValue)
    ensures !r.Undefined?
    ensures !options.Undefined? ==> r == options
  {
    if options.Undefined? then Obj else options
  }

  /** The argument list `call` and `send` pass on: the default `args = []`
      replaces an omitted (`undefined`) list with an empty array. */
  function DefaultedArgs(args: JsValue): (r: JsValue)
    ensures !r.Undefined?
    ensures args.Undefined? ==> r == Arr([])
    ensures !args.Undefined? ==> r == args
  {
    if args.Undefined? then Arr([]) else args
  }

  /** Through `call` or `send`, both defaults apply first: an omitted argument
      list goes through as `[]`, an array goes through with its elements
      unchanged, and any other argument list throws, since the options are
      never `undefined` by then. */
  lemma CallNormalises(args: JsValue, options: JsValue)
    ensures var r := AllowUndefinedArgs(DefaultedArgs(args), DefaultedOptions(options));
      (r.Err? <==> !args.Arr? && !args.Undefined?) &&
      (r.Ok? && args.Arr? ==> r.value.0 == args) &&
      (args.Undefined? ==> r == Ok((Arr([]), DefaultedOptions(options))))
  {
  }

  /** The error message names the offending argument as `String(args)`. */
  lemma ErrorNamesArgs(args: JsValue, sendOptions: JsValue)
    requires AllowUndefinedArgs(args, sendOptions).Err?
    ensures var m := AllowUndefinedArgs(args, sendOptions).error;
      |m| == 34 + |ToJsString(args)| && m[34..] == ToJsString(args) && m[..34] == "Args expected to be an array, got "
  {
  }
}
