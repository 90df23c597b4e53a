/** Rate codes and sub-channel codes of crates/radio-core/src/rtl8812au.rs. */
module TxRates {
  import opened RadioTypes
  import opened Wrappers

  datatype TxError =
    | FrameTooShort(actualLen: nat)
    | UnsupportedBandwidth(channel: bv8, bandwidth: Bandwidth)
    | UnsupportedRate(rate: TxRate)

  // ---------------------------------------------------------------- rates

  function RateCode(rate: TxRate): Option<bv8> {
    match rate
    case Cck1m => Some(0x00)
    case Cck2m => Some(0x01)
    case Cck5m => Some(0x02)
    case Cck11m => Some(0x03)
    case Ofdm6m => Some(0x04)
    case Ofdm9m => Some(0x05)
    case Ofdm12m => Some(0x06)
    case Ofdm18m => Some(0x07)
    case Ofdm24m => Some(0x08)
    case Ofdm36m => Some(0x09)
    case Ofdm48m => Some(0x0a)
    case Ofdm54m => Some(0x0b)
    case Mcs(mcs) => if mcs <= 31 then Some(0x0c + mcs) else None
    case Vht(mcs, nss) => if mcs <= 9 && 1 <= nss <= 4 then Some(0x2c + ((nss - 1) * 10) + mcs) else None
  }

  function TxRateToHw(rate: TxRate, channel: Channel): Result<bv8, TxError> {
    match RateCode(rate)
    case None => Err(UnsupportedRate(rate))
    case Some(hw) => Ok(if channel.band == Ghz5 && hw <= 0x03 then 0x04 else hw)
  }

  function RxRateFromHw(raw: bv8): Option<TxRate> {
    if raw == 0x00 then Some(Cck1m)
    else if raw == 0x01 then Some(Cck2m)
    else if raw == 0x02 then Some(Cck5m)
    else if raw == 0x03 then Some(Cck11m)
    else if raw == 0x04 then Some(Ofdm6m)
    else if raw == 0x05 then Some(Ofdm9m)
    else if raw == 0x06 then Some(Ofdm12m)
    else if raw == 0x07 then Some(Ofdm18m)
    else if raw == 0x08 then Some(Ofdm24m)
    else if raw == 0x09 then Some(Ofdm36m)
    else if raw == 0x0a then Some(Ofdm48m)
    else if raw == 0x0b then Some(Ofdm54m)
    else if 0x0c <= raw <= 0x2b then Some(Mcs(raw - 0x0c))
    else if 0x2c <= raw <= 0x53 then Some(Vht((raw - 0x2c) % 10, (raw - 0x2c) / 10 + 1))
    else None
  }

  /** The rate that goes on the air: CCK rates do not exist in the 5 GHz band. */
  function NormalRate(rate: TxRate, channel: Channel): TxRate {
    if channel.band == Ghz5 && (rate.Cck1m? || rate.Cck2m? || rate.Cck5m? || rate.Cck11m?) then Ofdm6m else rate
  }

  lemma VhtCode(mcs: bv8, nss: bv8)
    requires mcs <= 9 && 1 <= nss <= 4
    ensures var raw := 0x2c + ((nss - 1) * 10) + mcs;
            0x2c <= raw <= 0x53 && (raw - 0x2c) % 10 == mcs && (raw - 0x2c) / 10 + 1 == nss
  {
    assert nss == 1 || nss == 2 || nss == 3 || nss == 4;
  }

  /** Every code sent is read back as the normalised rate, and it fits the seven bits it is given. */
  lemma RateRoundTrip(rate: TxRate, channel: Channel)
    requires TxRateToHw(rate, channel).Ok?
    ensures RxRateFromHw(TxRateToHw(rate, channel).value) == Some(NormalRate(rate, channel))
    ensures TxRateToHw(rate, channel).value <= 0x53
  {
    if rate.Vht? {
      VhtCode(rate.vhtMcs, rate.nss);
    }
  }

  // ---------------------------------------------------------------- sub-channels

  const SC_DONT_CARE: bv8 := 0
  const SC_20_UPPER: bv8 := 1
  const SC_20_LOWER: bv8 := 2
  const SC_20_UPPERMOST: bv8 := 3
  const SC_20_LOWEST: bv8 := 4
  const SC_40_UPPER: bv8 := 9
  const SC_40_LOWER: bv8 := 10

  function Primary20Of40(channel: Channel): Result<bv8, TxError> {
    if channel.band == Ghz5 && channel.number % 8 == 4 then Ok(SC_20_LOWER)
    else if channel.band == Ghz5 && channel.number % 8 == 0 then Ok(SC_20_UPPER)
    else if channel.band == Ghz2 && 1 <= channel.number <= 7 then Ok(SC_20_LOWER)
    else if channel.band == Ghz2 && 8 <= channel.number <= 13 then Ok(SC_20_UPPER)
    else Err(UnsupportedBandwidth(channel.number, Mhz40))
  }

  function Half40Of80(channel: Channel): Result<bv8, TxError> {
    var n := channel.number;
    if n in {36, 40, 52, 56, 100, 104, 116, 120, 132, 136, 149, 153} then Ok(SC_40_LOWER)
    else if n in {44, 48, 60, 64, 108, 112, 124, 128, 140, 144, 157, 161} then Ok(SC_40_UPPER)
    else Err(UnsupportedBandwidth(n, Mhz80))
  }

  function Quarter20Of80(channel: Channel): Result<bv8, TxError> {
    var n := channel.number;
    if n in {36, 52, 100, 116, 132, 149} then Ok(SC_20_LOWEST)
    else if n in {40, 56, 104, 120, 136, 153} then Ok(SC_20_LOWER)
    else if n in {44, 60, 108, 124, 140, 157} then Ok(SC_20_UPPER)
    else if n in {48, 64, 112, 128, 144, 161} then Ok(SC_20_UPPERMOST)
    else Err(UnsupportedBandwidth(n, Mhz80))
  }

  /** The code telling where in the channel's bandwidth a narrower frame goes. */
  function SecondaryChannel(channel: Channel, channelBandwidth: Bandwidth, frameBandwidth: Bandwidth)
    : Result<bv8, TxError>
  {
    if channelBandwidth == frameBandwidth then Ok(SC_DONT_CARE)
    else match (channelBandwidth, frameBandwidth)
      case (Mhz40, Mhz20) => Primary20Of40(channel)
      case (Mhz80, Mhz40) => Half40Of80(channel)
      case (Mhz80, Mhz20) => Quarter20Of80(channel)
      case _ => Err(UnsupportedBandwidth(channel.number, frameBandwidth))
  }

  /** Where a channel sits in its 80 MHz block, counting 20 MHz steps from the bottom: the blocks start
      at 36 and every 16 up to 132, and at 149. */
  function BlockSlot(n: bv8): bv8
  {
    if n <= 64 then (n - 36) / 4 % 4 else if n <= 144 then (n - 100) / 4 % 4 else (n - 149) / 4 % 4
  }

  /** The codes name positions: on every channel that carries 80 MHz, a 20 MHz frame gets the code of its
      quarter and a 40 MHz frame the code of the half that quarter is in; on every other channel both
      are refused. */
  lemma SecondaryNamesPosition(channel: Channel)
    ensures SecondaryChannel(channel, Mhz80, Mhz20).Ok? <==> channel.number in WIDE_CHANNELS
    ensures SecondaryChannel(channel, Mhz80, Mhz40).Ok? <==> channel.number in WIDE_CHANNELS
    ensures channel.number in WIDE_CHANNELS ==>
      && SecondaryChannel(channel, Mhz80, Mhz20).value == (
           var slot := BlockSlot(channel.number);
           if slot == 0 then SC_20_LOWEST else if slot == 1 then SC_20_LOWER
           else if slot == 2 then SC_20_UPPER else SC_20_UPPERMOST)
      && SecondaryChannel(channel, Mhz80, Mhz40).value
         == (if BlockSlot(channel.number) < 2 then SC_40_LOWER else SC_40_UPPER)
  {
  }

  /** A 20 MHz frame on a 40 MHz channel is refused exactly off the 5 GHz channels divisible by four and
      the 2.4 GHz channels 1 to 13; in particular on 149 to 165, whose numbers are one more than a
      multiple of four, although those channels are taken to support 40 MHz. */
  lemma NarrowOn40(channel: Channel)
    ensures SecondaryChannel(channel, Mhz40, Mhz20).Ok? <==>
            if channel.band == Ghz5 then channel.number % 4 == 0 else 1 <= channel.number <= 13
    ensures channel.band == Ghz5 && channel.number in {149, 153, 157, 161, 165} ==>
            SupportsBandwidth(channel, Mhz40) && SecondaryChannel(channel, Mhz40, Mhz20).Err?
  {
  }

  lemma SecondaryFits(channel: Channel, channelBandwidth: Bandwidth, frameBandwidth: Bandwidth)
    requires SecondaryChannel(channel, channelBandwidth, frameBandwidth).Ok?
    ensures SecondaryChannel(channel, channelBandwidth, frameBandwidth).value <= 10
  {
  }
}
