/**
 * Static configuration (config.py): the fixed Korea Standard Time offset,
 * the monitored Telegram channels and their display labels.
 * Instants are integers counting microseconds since the Unix epoch, the
 * resolution of Python's `datetime`.
 */
module Config {

  const SECOND: int := 1_000_000
  const HOUR: int := 3600 * SECOND
  const DAY: int := 24 * HOUR

  /** `KST = timezone(timedelta(hours=9))`: a fixed offset, no daylight saving. */
  const KST_OFFSET: int := 9 * HOUR

  /** `TELEGRAM_CHANNELS`, in configuration order. */
  const TELEGRAM_CHANNELS: seq<string> := [
    "chunjonghyun",
    "The_MariTimes",
    "cahier_de_market",
    "Macrojunglemicrolens",
    "kkkontemp",
    "aetherjapanresearch",
    "mistergray_11",
    "defence_24",
    "misaengofficial",
    "rafikiresearch",
    "ivy77788",
    "samsung_macro",
    "Joorini34"
  ]

  /** `CHANNEL_LABELS`: the display label of each configured channel. */
  const CHANNEL_LABELS: map<string, string> := map[
    "chunjonghyun" := "📡 전종현의 인사이트",
    "The_MariTimes" := "🌍 Polaristimes",
    "cahier_de_market" := "📊 카이에 de Market",
    "Macrojunglemicrolens" := "🌴 Macro Jungle",
    "kkkontemp" := "📘 KK Kontemp",
    "aetherjapanresearch" := "🧭 에테르 리서치",
    "mistergray_11" := "💾 회색인간",
    "defence_24" := "🛡 우주방산 AI로봇 아카이브",
    "misaengofficial" := "📖 미생과 완생",
    "rafikiresearch" := "🧠 라피키 리서치",
    "ivy77788" := "📊 플렉서블 리서치",
    "samsung_macro" := "📈 삼성리서치 매크로",
    "Joorini34" := "📊 Granit34 투자스토리"
  ]
}
