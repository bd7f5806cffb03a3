/** Vocabulary shared by the page checker: tracked pages, their digests, and
    the outcome of an operation that can fail the way the program's calls raise. */
module Pages {

  /** A page is named by its URL, a plain string. */
  type Url = string

  /** Raw page content, as handed to the hash function. */
  type Bytes = seq<bv8>

  /** The pages the network serves at the moment of a request: the content
      at each URL, or None when requesting it raises. */
  type Web = Url -> Option<Bytes>

  /** What `hexdigest()` yields: lower-case hexadecimal, never empty. */
  predicate IsHexDigest(s: string) {
    |s| > 0 && forall i :: 0 <= i < |s| ==> IsHexChar(s[i])
  }

  predicate IsHexChar(c: char) {
    '0' <= c <= '9' || 'a' <= c <= 'f'
  }

  type HexDigest = s: string | IsHexDigest(s) witness "0"

  /** The checklist: URL -> digest of the page when it was last seen. A URL
      added from the command line carries the placeholder digest "". */
  type PageMap = map<Url, string>

  datatype Option<T> = None | Some(value: T)

  /** The exceptions that end an operation early. */
  datatype Error =
    | FileUnreadable        // the checklist file cannot be opened or parsed
    | FetchFailed(url: Url) // downloading this page raised
    | NotifyFailed          // the notifier raised

  datatype Result<T> = Ok(value: T) | Err(error: Error)
}
