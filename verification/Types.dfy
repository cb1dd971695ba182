/** The values the dispatcher shares with the tasks around it; floats are exact reals. */
module Types {
  import opened Machine
  import opened Packet

  datatype TxRequest = TxRequest(packet: Packet, priority: u8, delayMs: u32)

  datatype RxPacket = RxPacket(packet: Packet, rssi: real, snr: real)

  datatype Config = Config(
    airtimeBudgetFactor: real,
    dutyCycleWindowMs: u32,
    minTxBudgetReserveMs: u32,
    cadRetryMinMs: u32,
    cadRetryMaxMs: u32,
    cadTimeoutMs: u32,
    maxRxDelayMs: u32,
    minRxDelayThresholdMs: u32)

  datatype Stats = Stats(
    totalAirTimeMs: u32,
    rxAirTimeMs: u32,
    sentFlood: u32,
    sentDirect: u32,
    recvFlood: u32,
    recvDirect: u32)
}
