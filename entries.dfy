/**
 * One record of the dataset the gallery loads. Every field is the record's text
 * as read from JSON; a field the record lacks is the empty string, which is how
 * the script's `||` fallbacks treat it too.
 */
module Apod {

  datatype Entry = Entry(
    date: string,          // `YYYY-MM-DD`
    title: string,
    explanation: string,
    mediaType: string,     // "image", "video" or anything else
    url: string,
    hdurl: string,
    thumbnailUrl: string,
    copyright: string)

  /** `a || b` on strings: the first one unless it is empty. */
  function Or(a: string, b: string): string {
    if a != "" then a else b
  }
}
