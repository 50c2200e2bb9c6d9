/** Application constants shared by several services. */
module Constants {
  /** Prefix of the participant QR payload. */
  const QR_PREFIX: string := "XRNODE:"

  /** Lowest score of the EXCELLENT tier. */
  const EXCELLENT_THRESHOLD: int := 75

  /** Lowest score of the GOOD tier. */
  const GOOD_THRESHOLD: int := 50

  /** The aura colour table of the tiers. */
  const AURA_EXCELLENT: string := "#22c55e"
  const AURA_GOOD: string := "#eab308"
  const AURA_LOW: string := "#ef4444"
}
