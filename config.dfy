/**
 * The bot's static configuration that drives logic: the stars tier table.
 * Keys are decimal amounts as strings; labels are written in Unicode small
 * capitals and begin with a space. The order is the table's insertion order,
 * which is the order in which the stars keyboard lists the tiers.
 */
module Config {

  const StarsTiers: seq<(string, string)> := [
    ("5", " s\U{1D1B}\U{1D00}\U{0280}\U{1D1B}\U{1D07}\U{0280}"), // " sᴛᴀʀᴛᴇʀ" (starter)
    ("10", " \U{1D21}\U{1D00}\U{0280}\U{0280}\U{026A}\U{1D0F}\U{0280}"), // " ᴡᴀʀʀɪᴏʀ" (warrior)
    ("25", " \U{0262}\U{1D1C}\U{1D00}\U{0280}\U{1D05}\U{026A}\U{1D00}\U{0274}"), // " ɢᴜᴀʀᴅɪᴀɴ" (guardian)
    ("50", " \U{1D04}\U{029C}\U{1D00}\U{1D0D}\U{1D18}\U{026A}\U{1D0F}\U{0274}"), // " ᴄʜᴀᴍᴘɪᴏɴ" (champion)
    ("100", " \U{1D0D}\U{028F}\U{1D1B}\U{029C}\U{026A}\U{1D04}"), // " ᴍʏᴛʜɪᴄ" (mythic)
    ("200", " \U{029F}\U{1D07}\U{0262}\U{1D07}\U{0274}\U{1D05}"), // " ʟᴇɢᴇɴᴅ" (legend)
    ("500", " \U{1D07}\U{1D1B}\U{1D07}\U{0280}\U{0274}\U{1D00}\U{029F}"), // " ᴇᴛᴇʀɴᴀʟ" (eternal)
    ("1000", " s\U{1D1C}\U{1D18}\U{0280}\U{1D07}\U{1D0D}\U{1D07}") // " sᴜᴘʀᴇᴍᴇ" (supreme)
  ]

  /** The amounts the tier keys spell, in table order. */
  const TierAmounts: seq<nat> := [5, 10, 25, 50, 100, 200, 500, 1000]
}
