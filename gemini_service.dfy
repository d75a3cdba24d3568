// The deterministic parts of the AI service (services/geminiService.ts): the structured error
// classifier, category normalisation, the black-background alpha pass and the choice of the
// sticker image and drama text from the model's answer.

module GeminiService {
  import opened Types
  import opened Text

  // ================================================================ error classification

  datatype ErrorCategory = Network | ImageQuality | RateLimit | Safety | ParseError | Unknown

  /** The structured error shown to the user. */
  datatype AnalysisError = AnalysisError(category: ErrorCategory, title: string, message: string, suggestion: string)

  const NetworkFailure := AnalysisError(Network, "网络连接失败", "无法连接到 AI 分析服务。",
    "请检查网络连接后重试。如使用 VPN，尝试切换节点。")
  const RateLimited := AnalysisError(RateLimit, "AI 服务繁忙", "当前请求过于频繁或 API 额度不足。",
    "请等待 30 秒后重试，或联系管理员检查 API 额度。")
  const SafetyBlocked := AnalysisError(Safety, "图片内容受限", "AI 安全系统认为该图片内容不适合分析。",
    "请确保图片中只有待回收的物品，避免包含人物或敏感内容。")
  const AuthFailure := AnalysisError(Network, "API 认证失败", "API 密钥无效或已过期。",
    "请联系管理员更新 API 密钥配置。")
  const Unrecognised := AnalysisError(ImageQuality, "图片识别困难", "AI 未能从图片中识别出物品信息。",
    "试试：1) 确保物品在画面中清晰居中 2) 保持背景简洁 3) 光线充足 4) 避免过度模糊")
  const BadAnswer := AnalysisError(ParseError, "AI 返回异常", "AI 返回的结果格式异常，无法解析。",
    "这通常是临时问题，请重新拍摄或直接重试。")
  const ServerFailure := AnalysisError(Network, "AI 服务器错误", "AI 服务暂时不可用。",
    "服务端暂时异常，请等待几秒后重试。")

  const UnknownTitle := "分析遇到问题"
  const UnknownSuggestion := "请重试。如果问题持续出现，尝试更换图片或检查网络连接。"

  /** The `includes` groups of `classifyError`, in the order they are tested. */
  const NetworkKeys: seq<string> := ["fetch", "network", "failed to fetch", "networkerror", "timeout",
    "aborted", "econnrefused", "enotfound", "err_connection", "cors"]
  const RateLimitKeys: seq<string> := ["429", "rate limit", "quota", "resource exhausted", "too many requests"]
  const SafetyKeys: seq<string> := ["safety", "blocked", "harm", "prohibited", "content filter"]
  const AuthKeys: seq<string> := ["401", "403", "unauthorized", "forbidden", "api key", "permission"]
  const EmptyAnswerKeys: seq<string> := ["no response", "empty", "could not", "unable to"]
  const ParseKeys: seq<string> := ["json", "parse", "unexpected token", "syntax error"]
  const ServerKeys: seq<string> := ["500", "502", "503", "504", "internal", "server error", "service unavailable"]

  const ErrorRules: seq<Rule<AnalysisError>> := [
    Rule(NetworkKeys, NetworkFailure),
    Rule(RateLimitKeys, RateLimited),
    Rule(SafetyKeys, SafetyBlocked),
    Rule(AuthKeys, AuthFailure),
    Rule(EmptyAnswerKeys, Unrecognised),
    Rule(ParseKeys, BadAnswer),
    Rule(ServerKeys, ServerFailure)
  ]

  /** The message of the fallback error: long messages are cut to 100 characters plus "...". */
  function Truncate(errMsg: string): (r: string)
    ensures |errMsg| <= 100 ==> r == errMsg
    ensures |errMsg| > 100 ==> |r| == 103 && r[..100] == errMsg[..100] && r[100..] == "..."
  {
    if |errMsg| > 100 then errMsg[..100] + "..." else errMsg
  }

  /** `classifyError`, given the error's message text. */
  function ClassifyError(errMsg: string): (r: AnalysisError)
    ensures r.category == Unknown <==>
            NoneMatch(Lower(errMsg), ErrorRules, |ErrorRules|)
    ensures r.category == Unknown ==>
            r == AnalysisError(Unknown, UnknownTitle, Truncate(errMsg), UnknownSuggestion)
  {
    ErrorRulesNeverUnknown();
    Classify(Lower(errMsg), ErrorRules,
             AnalysisError(Unknown, UnknownTitle, Truncate(errMsg), UnknownSuggestion))
  }

  lemma ErrorRulesNeverUnknown()
    ensures forall i :: 0 <= i < |ErrorRules| ==> ErrorRules[i].outcome.category != Unknown
  {
  }

  /** A group decides the error exactly when one of its substrings occurs in the lowercased
      message and no earlier group's does. */
  lemma ClassifyFirstMatch(errMsg: string, i: nat)
    requires i < |ErrorRules|
    requires ContainsAny(Lower(errMsg), ErrorRules[i].keys)
    requires NoneMatch(Lower(errMsg), ErrorRules, i)
    ensures ClassifyError(errMsg) == ErrorRules[i].outcome
  {
    FirstRuleExactly(Lower(errMsg), ErrorRules, i);
  }

  /** Three different groups (connection, authentication, server) all report `NETWORK`;
      the title tells them apart. */
  lemma NetworkCauses(errMsg: string)
    ensures ClassifyError(errMsg).category == Network <==>
            FirstRule(Lower(errMsg), ErrorRules) in {Some(0), Some(3), Some(6)}
    ensures ClassifyError(errMsg).category == Network ==>
            ClassifyError(errMsg).title in {"网络连接失败", "API 认证失败", "AI 服务器错误"}
  {
    var r := FirstRule(Lower(errMsg), ErrorRules);
    if r.Some? {
      OutcomeIsNetwork(r.value);
    }
  }

  /** Which groups report `NETWORK`, and under which title. */
  lemma OutcomeIsNetwork(i: nat)
    requires i < |ErrorRules|
    ensures ErrorRules[i].outcome.category == Network <==> i in {0, 3, 6}
    ensures ErrorRules[i].outcome.category == Network ==>
            ErrorRules[i].outcome.title in {"网络连接失败", "API 认证失败", "AI 服务器错误"}
  {
  }

  lemma NetworkTitlesDistinct()
    ensures NetworkFailure.title != AuthFailure.title
    ensures NetworkFailure.title != ServerFailure.title
    ensures AuthFailure.title != ServerFailure.title
  {
    assert NetworkFailure.title[0] != AuthFailure.title[0];
    assert NetworkFailure.title[0] != ServerFailure.title[0];
    assert AuthFailure.title[1] != ServerFailure.title[1];
  }

  /** Only the fallback reads the original spelling; every other outcome depends on the
      lowercased message alone. */
  lemma ClassifyIgnoresCase(a: string, b: string)
    requires Lower(a) == Lower(b)
    requires ClassifyError(a).category != Unknown
    ensures ClassifyError(a) == ClassifyError(b)
  {
  }

  /** A message that mentions a timeout is a network failure whatever else it says: the
      network group is tried first. */
  lemma TimeoutIsNetwork(errMsg: string)
    requires Contains(Lower(errMsg), "timeout")
    ensures ClassifyError(errMsg) == NetworkFailure
  {
    assert NetworkKeys[4] == "timeout";
    ClassifyFirstMatch(errMsg, 0);
  }

  /** "Timeout 429" names both a timeout and a rate limit, and is reported as a network failure.
      The example lemmas take the message as a parameter equal to the literal and reach the
      result through small steps, so that the verifier does not evaluate the classifier. */
  lemma TimeoutBeforeRateLimit(errMsg: string)
    requires errMsg == "Timeout 429"
    ensures ContainsAny(Lower(errMsg), RateLimitKeys)
    ensures ClassifyError(errMsg) == NetworkFailure
  {
    LowerTimeout429(errMsg);
    MentionsTimeoutAnd429(Lower(errMsg));
    TimeoutIsNetwork(errMsg);
  }

  lemma LowerTimeout429(errMsg: string)
    requires errMsg == "Timeout 429"
    ensures Lower(errMsg) == "timeout 429"
  {
  }

  lemma MentionsTimeoutAnd429(s: string)
    requires s == "timeout 429"
    ensures Contains(s, "timeout") && ContainsAny(s, RateLimitKeys)
  {
    assert OccursAt(s, "timeout", 0);
    ContainsMeans(s, "timeout");
    assert OccursAt(s, "429", 8);
    ContainsMeans(s, "429");
  }

  /** The error thrown when the model returns no text is reported as an image problem. */
  lemma NoResponseIsImageQuality(errMsg: string)
    requires errMsg == "No response from AI"
    ensures ClassifyError(errMsg) == Unrecognised
  {
    LowerNoResponse(errMsg);
    NoResponseMissesEarlier(Lower(errMsg));
    NoResponseMentionsEmptyAnswer(Lower(errMsg));
    ClassifyFirstMatch(errMsg, 4);
  }

  lemma LowerNoResponse(errMsg: string)
    requires errMsg == "No response from AI"
    ensures Lower(errMsg) == "no response from ai"
  {
  }

  lemma NoResponseMentionsEmptyAnswer(s: string)
    requires s == "no response from ai"
    ensures ContainsAny(s, ErrorRules[4].keys)
  {
    assert OccursAt(s, "no response", 0);
    ContainsMeans(s, "no response");
  }

  /** None of the four groups before the empty-answer group matches "no response from ai". */
  lemma NoResponseMissesEarlier(s: string)
    requires s == "no response from ai"
    ensures NoneMatch(s, ErrorRules, 4)
  {
    NoResponseMissesNetwork(s);
    NoResponseMissesRateLimit(s);
    NoResponseMissesSafety(s);
    NoResponseMissesAuth(s);
  }

  // Each of the keys below has a character that "no response from ai" lacks, except "permission".

  lemma NoResponseMissesNetwork(s: string)
    requires s == "no response from ai"
    ensures !ContainsAny(s, NetworkKeys)
  {
    KeysNeedAbsentChars(s, NetworkKeys, "tttttbcttc");
  }

  lemma NoResponseMissesRateLimit(s: string)
    requires s == "no response from ai"
    ensures !ContainsAny(s, RateLimitKeys)
  {
    KeysNeedAbsentChars(s, RateLimitKeys, "4tqct");
  }

  lemma NoResponseMissesSafety(s: string)
    requires s == "no response from ai"
    ensures !ContainsAny(s, SafetyKeys)
  {
    KeysNeedAbsentChars(s, SafetyKeys, "tbhhc");
  }

  lemma NoResponseMissesAuth(s: string)
    requires s == "no response from ai"
    ensures !ContainsAny(s, AuthKeys)
  {
    KeysNeedAbsentChars(s, AuthKeys[..5], "44ubk");
    NoPermission();
    forall k | k in AuthKeys
      ensures !Contains(s, k)
    {
      if k != "permission" {
        assert k in AuthKeys[..5];
      }
    }
  }

  /** "permission" does not occur in "no response from ai" (checked position by position). */
  lemma NoPermission()
    ensures !Contains("no response from ai", "permission")
  {
    var s := "no response from ai";
    var k := "permission";
    assert !ContainsFrom(s, k, 10);
    assert !ContainsFrom(s, k, 9);
    assert !ContainsFrom(s, k, 8);
    assert !ContainsFrom(s, k, 7);
    assert !ContainsFrom(s, k, 6);
    assert !ContainsFrom(s, k, 5);
    assert !ContainsFrom(s, k, 4);
    assert !ContainsFrom(s, k, 3);
    assert !ContainsFrom(s, k, 2);
    assert !ContainsFrom(s, k, 1);
  }

  // ================================================================ category normalisation

  /** The category the model reported: `None` when the field is missing or not a string. */
  function NormalizeCategory(catVal: Option<string>): (r: string)
    ensures r in CategoryNames()
    ensures catVal.Some? && catVal.value in CategoryNames() ==> r == catVal.value
    ensures !(catVal.Some? && catVal.value in CategoryNames()) ==> r == CategoryName(Other)
  {
    if catVal.Some? && catVal.value in CategoryNames() then catVal.value else CategoryName(Other)
  }

  /** Normalising an already normalised category changes nothing. */
  lemma NormalizeCategoryIdempotent(catVal: Option<string>)
    ensures NormalizeCategory(Some(NormalizeCategory(catVal))) == NormalizeCategory(catVal)
  {
  }

  /** Every enum value survives normalisation as itself. */
  lemma NormalizeCategoryKeepsEnum(c: ItemCategory)
    ensures NormalizeCategory(Some(CategoryName(c))) == CategoryName(c)
  {
    var names := CategoryNames();
    match c
    case Packaging => assert names[0] == CategoryName(c);
    case Container => assert names[1] == CategoryName(c);
    case Paper => assert names[2] == CategoryName(c);
    case Electronic => assert names[3] == CategoryName(c);
    case Textile => assert names[4] == CategoryName(c);
    case Other => assert names[5] == CategoryName(c);
  }

  // ================================================================ background removal

  newtype byte = x: int | 0 <= x < 256

  function Square(x: byte): (q: nat)
    ensures q <= 255 * 255
  {
    assert (x as int) * (x as int) <= (x as int) * 255;
    (x as int) * (x as int)
  }

  /** r² + g² + b²: the square of the pixel's distance from pure black. */
  function SquaredBrightness(r: byte, g: byte, b: byte): (sq: nat)
    ensures sq <= 3 * 255 * 255
  {
    Square(r) + Square(g) + Square(b)
  }

  /** m − 1/2 ≤ (√sq − t)/f · 255, written without square roots or fractions. */
  predicate Reaches(sq: nat, t: nat, f: nat, m: int)
  {
    ((2 * m - 1) * f + 510 * t) * ((2 * m - 1) * f + 510 * t) <= 260100 * sq
  }

  /** The largest m in 1..k with `Reaches`, or 0. */
  function LargestReached(sq: nat, t: nat, f: nat, k: nat): (m: nat)
    ensures m <= k
    ensures m > 0 ==> Reaches(sq, t, f, m)
  {
    if k == 0 then 0 else if Reaches(sq, t, f, k) then k else LargestReached(sq, t, f, k - 1)
  }

  /** `Math.round((brightness - t) / f * 255)` for a pixel in the feather band. */
  function FeatherAlpha(sq: nat, t: nat, f: nat): (a: byte)
  {
    LargestReached(sq, t, f, 255) as byte
  }

  /** The new alpha of one pixel.  Since `Math.sqrt` is correctly rounded and the bounds are
      integers, `brightness <= t` holds exactly when sq <= t², and likewise for t + f. */
  function NewAlpha(r: byte, g: byte, b: byte, a: byte, t: nat, f: nat): byte
  {
    var sq := SquaredBrightness(r, g, b);
    if sq <= t * t then 0
    else if sq <= (t + f) * (t + f) then FeatherAlpha(sq, t, f)
    else a
  }

  /** The whole pass over an RGBA buffer: every complete pixel's alpha byte is recomputed from
      its colour bytes; bytes of an incomplete last pixel read as NaN and are left alone. */
  function AlphaPass(s: seq<byte>, t: nat, f: nat): (r: seq<byte>)
  {
    seq(|s|, k requires 0 <= k < |s| =>
      if k % 4 == 3 then NewAlpha(s[k - 3], s[k - 2], s[k - 1], s[k], t, f) else s[k])
  }

  /** The loop of `removeBlackBackground`, in place over the image data. */
  method RemoveBlackBackground(data: array<byte>, threshold: nat, feather: nat)
    modifies data
    ensures data[..] == AlphaPass(old(data[..]), threshold, feather)
  {
    ghost var before := data[..];
    var i := 0;
    while i < data.Length
      invariant i % 4 == 0
      invariant DoneUpTo(data[..], before, threshold, feather, i)
    {
      ghost var cur := data[..];
      if i + 3 < data.Length {
        RewriteAlpha(data, i, threshold, feather);
        PixelStep(cur, before, threshold, feather, i);
      } else {
        TailStep(cur, before, threshold, feather, i);
      }
      i := i + 4;
    }
    DoneAll(data[..], before, threshold, feather, i);
  }

  /** The loop body for the pixel at i: only its alpha byte changes, and it becomes the alpha
      the three bands give. */
  method RewriteAlpha(data: array<byte>, i: nat, threshold: nat, feather: nat)
    requires i + 3 < data.Length
    modifies data
    ensures data[..] == old(data[..])[i + 3 := NewAlpha(old(data[i]), old(data[i + 1]), old(data[i + 2]), old(data[i + 3]), threshold, feather)]
  {
    var sq := SquaredBrightness(data[i], data[i + 1], data[i + 2]);
    if sq <= threshold * threshold {
      data[i + 3] := 0;
    } else if sq <= (threshold + feather) * (threshold + feather) {
      data[i + 3] := FeatherAlpha(sq, threshold, feather);
    }
  }

  /** The loop invariant: the bytes before i hold the pass's result, the rest the original. */
  ghost predicate DoneUpTo(cur: seq<byte>, before: seq<byte>, t: nat, f: nat, i: nat)
  {
    |cur| == |before| &&
    (forall k :: 0 <= k < i && k < |cur| ==> cur[k] == AlphaPass(before, t, f)[k]) &&
    (forall k :: i <= k < |cur| ==> cur[k] == before[k])
  }

  /** Rewriting the alpha of the complete pixel at i moves the invariant on by one pixel. */
  lemma PixelStep(cur: seq<byte>, before: seq<byte>, t: nat, f: nat, i: nat)
    requires i % 4 == 0 && i + 3 < |cur| && DoneUpTo(cur, before, t, f, i)
    ensures DoneUpTo(cur[i + 3 := NewAlpha(cur[i], cur[i + 1], cur[i + 2], cur[i + 3], t, f)], before, t, f, i + 4)
  {
    AlphaPassPixel(before, t, f, i + 3);
  }

  /** An incomplete last pixel is skipped, and the invariant still moves on. */
  lemma TailStep(cur: seq<byte>, before: seq<byte>, t: nat, f: nat, i: nat)
    requires i % 4 == 0 && |cur| <= i + 3 && DoneUpTo(cur, before, t, f, i)
    ensures DoneUpTo(cur, before, t, f, i + 4)
  {
    AlphaPassTail(before, t, f, i);
  }

  /** Once i has passed the end, the buffer is the pass's result. */
  lemma DoneAll(cur: seq<byte>, before: seq<byte>, t: nat, f: nat, i: nat)
    requires |cur| <= i && DoneUpTo(cur, before, t, f, i)
    ensures cur == AlphaPass(before, t, f)
  {
  }

  /** The bytes of an incomplete last pixel are left as they are. */
  lemma AlphaPassTail(s: seq<byte>, t: nat, f: nat, i: nat)
    requires i % 4 == 0 && |s| <= i + 3
    ensures |AlphaPass(s, t, f)| == |s|
    ensures forall k :: i <= k < |s| ==> AlphaPass(s, t, f)[k] == s[k]
  {
    forall k | i <= k < |s|
      ensures AlphaPass(s, t, f)[k] == s[k]
    {
      assert k % 4 != 3;
    }
  }

  /** A pixel's new alpha does not depend on its old alpha once rewritten. */
  lemma NewAlphaStable(r: byte, g: byte, b: byte, a: byte, t: nat, f: nat)
    ensures NewAlpha(r, g, b, NewAlpha(r, g, b, a, t, f), t, f) == NewAlpha(r, g, b, a, t, f)
  {
  }

  // ---------------------------------------------------------------- properties of the pass

  /** Only alpha bytes change; red, green and blue are kept. */
  lemma AlphaPassKeepsColour(s: seq<byte>, t: nat, f: nat, k: nat)
    requires k < |s| && k % 4 != 3
    ensures |AlphaPass(s, t, f)| == |s| && AlphaPass(s, t, f)[k] == s[k]
  {
  }

  /** The three brightness bands of a pixel's alpha byte. */
  lemma AlphaPassBands(s: seq<byte>, t: nat, f: nat, k: nat)
    requires k < |s| && k % 4 == 3
    ensures var sq := SquaredBrightness(s[k - 3], s[k - 2], s[k - 1]);
            var a := AlphaPass(s, t, f)[k];
            (sq <= t * t ==> a == 0) &&
            (sq > (t + f) * (t + f) ==> a == s[k]) &&
            (t * t < sq <= (t + f) * (t + f) ==> a == FeatherAlpha(sq, t, f))
  {
  }

  /** One complete pixel of the pass: its colour is kept and its alpha is recomputed. */
  lemma AlphaPassPixel(s: seq<byte>, t: nat, f: nat, k: nat)
    requires k < |s| && k % 4 == 3
    ensures var r := AlphaPass(s, t, f);
            |r| == |s| && r[k - 3] == s[k - 3] && r[k - 2] == s[k - 2] && r[k - 1] == s[k - 1] &&
            r[k] == NewAlpha(s[k - 3], s[k - 2], s[k - 1], s[k], t, f)
  {
    PixelOffsets(k);
  }

  /** The three bytes before an alpha byte are its red, green and blue. */
  lemma PixelOffsets(k: nat)
    requires k % 4 == 3
    ensures 3 <= k && (k - 3) % 4 == 0 && (k - 2) % 4 == 1 && (k - 1) % 4 == 2
  {
  }

  /** The pass reads only colour bytes, which it leaves alone, so running it twice is running
      it once. */
  lemma AlphaPassIdempotent(s: seq<byte>, t: nat, f: nat)
    ensures AlphaPass(AlphaPass(s, t, f), t, f) == AlphaPass(s, t, f)
  {
    var once := AlphaPass(s, t, f);
    var twice := AlphaPass(once, t, f);
    forall k | 0 <= k < |s|
      ensures twice[k] == once[k]
    {
      AlphaPassTwiceAt(s, t, f, k);
    }
  }

  lemma AlphaPassTwiceAt(s: seq<byte>, t: nat, f: nat, k: nat)
    requires k < |s|
    ensures |AlphaPass(AlphaPass(s, t, f), t, f)| == |s|
    ensures AlphaPass(AlphaPass(s, t, f), t, f)[k] == AlphaPass(s, t, f)[k]
  {
    var once := AlphaPass(s, t, f);
    if k % 4 == 3 {
      AlphaPassPixel(s, t, f, k);
      AlphaPassPixel(once, t, f, k);
      NewAlphaStable(s[k - 3], s[k - 2], s[k - 1], s[k], t, f);
    }
  }

  // ---------------------------------------------------------------- the feather value

  lemma SquareMonotone(x: int, y: int)
    requires 0 <= x <= y
    ensures x * x <= y * y
  {
    assert x * x <= x * y <= y * y;
  }

  /** Below a reached value every positive value is reached too. */
  lemma ReachesDownward(sq: nat, t: nat, f: nat, m: int, n: int)
    requires 1 <= m <= n && Reaches(sq, t, f, n)
    ensures Reaches(sq, t, f, m)
  {
    assert 0 <= (2 * m - 1) * f by { assert 2 * m - 1 >= 1; }
    assert (2 * m - 1) * f <= (2 * n - 1) * f by { assert 2 * m - 1 <= 2 * n - 1; }
    SquareMonotone((2 * m - 1) * f + 510 * t, (2 * n - 1) * f + 510 * t);
  }

  /** `LargestReached` is exactly the threshold: m in 1..k is reached iff m <= the result. */
  lemma {:induction false} LargestReachedExact(sq: nat, t: nat, f: nat, k: nat, m: int)
    requires 1 <= m <= k
    ensures Reaches(sq, t, f, m) <==> m <= LargestReached(sq, t, f, k)
  {
    var r := LargestReached(sq, t, f, k);
    if Reaches(sq, t, f, k) {
      ReachesDownward(sq, t, f, m, k);
    } else if m < k {
      LargestReachedExact(sq, t, f, k - 1, m);
    }
  }

  /** A brighter pixel reaches at least the same values. */
  lemma {:induction false} LargestReachedMonotone(sq1: nat, sq2: nat, t: nat, f: nat, k: nat)
    requires sq1 <= sq2
    ensures LargestReached(sq1, t, f, k) <= LargestReached(sq2, t, f, k)
  {
    if k > 0 && !Reaches(sq2, t, f, k) {
      LargestReachedMonotone(sq1, sq2, t, f, k - 1);
    }
  }

  /** In the feather band the rounded ratio never reaches 256, so the search bound 255 loses
      nothing. */
  lemma FeatherBelow256(sq: nat, t: nat, f: nat)
    requires 0 < f && sq <= (t + f) * (t + f)
    ensures !Reaches(sq, t, f, 256)
  {
    var lhs := 511 * f + 510 * t;
    assert 260100 * sq <= 260100 * ((t + f) * (t + f));
    assert 260100 * ((t + f) * (t + f)) == (510 * t + 510 * f) * (510 * t + 510 * f);
    assert 510 * t + 510 * f < lhs;
    assert (510 * t + 510 * f) * (510 * t + 510 * f) < lhs * lhs by {
      assert (510 * t + 510 * f) * (510 * t + 510 * f) <= (510 * t + 510 * f) * lhs;
      assert (510 * t + 510 * f) * lhs < lhs * lhs;
    }
  }

  lemma PositiveProduct(a: real, b: real)
    requires 0.0 < a && 0.0 < b
    ensures 0.0 < a * b
  {
  }

  lemma SquareLess(x: real, y: real)
    requires 0.0 <= x < y
    ensures x * x < y * y
  {
    PositiveProduct(y - x, y + x);
    assert (y - x) * (y + x) == y * y - x * x;
  }

  /** For reals x, y >= 0, x² <= y² exactly when x <= y. */
  lemma RealSquareOrder(x: real, y: real)
    requires 0.0 <= x && 0.0 <= y
    ensures x * x <= y * y <==> x <= y
  {
    if x < y {
      SquareLess(x, y);
    } else if y < x {
      SquareLess(y, x);
    }
  }

  lemma CastSquare(x: int)
    ensures (x * x) as real == (x as real) * (x as real)
  {
  }

  /** A reached m >= 1 means (2m − 1)·f + 510·t <= 510·b when b = √sq. */
  lemma ReachedBelow(sq: nat, t: nat, f: nat, m: int, b: real)
    requires 1 <= m && Reaches(sq, t, f, m)
    requires 0.0 <= b && b * b == sq as real
    ensures ((2 * m - 1) * f + 510 * t) as real <= 510.0 * b
  {
    OddOffsetNonNegative(m, f, t);
    RootBelow((2 * m - 1) * f + 510 * t, sq, b);
  }

  /** An m that is not reached means 510·b < (2m − 1)·f + 510·t when b = √sq. */
  lemma UnreachedAbove(sq: nat, t: nat, f: nat, m: int, b: real)
    requires 1 <= m && !Reaches(sq, t, f, m)
    requires 0.0 <= b && b * b == sq as real
    ensures 510.0 * b < ((2 * m - 1) * f + 510 * t) as real
  {
    OddOffsetNonNegative(m, f, t);
    RootAbove((2 * m - 1) * f + 510 * t, sq, b);
  }

  lemma OddOffsetNonNegative(m: int, f: nat, t: nat)
    requires 1 <= m
    ensures 0 <= (2 * m - 1) * f + 510 * t
  {
    assert 0 <= (2 * m - 1) * f;
  }

  /** x² <= 510²·sq gives x <= 510·√sq. */
  lemma RootBelow(x: int, sq: nat, b: real)
    requires 0 <= x && x * x <= 260100 * sq
    requires 0.0 <= b && b * b == sq as real
    ensures x as real <= 510.0 * b
  {
    CastSquare(x);
    ScaledSquare(b, sq);
    RealSquareOrder(x as real, 510.0 * b);
  }

  /** 510²·sq < y² gives 510·√sq < y. */
  lemma RootAbove(y: int, sq: nat, b: real)
    requires 0 <= y && 260100 * sq < y * y
    requires 0.0 <= b && b * b == sq as real
    ensures 510.0 * b < y as real
  {
    CastSquare(y);
    ScaledSquare(b, sq);
    RealSquareOrder(y as real, 510.0 * b);
  }

  /** (510·b)² = 510²·sq when b² = sq. */
  lemma ScaledSquare(b: real, sq: nat)
    requires b * b == sq as real
    ensures (510.0 * b) * (510.0 * b) == (260100 * sq) as real
  {
    assert (510.0 * b) * (510.0 * b) == 260100.0 * (b * b);
  }

  /** (b − t)/f · 255: the feather ratio of `removeBlackBackground` for brightness b. */
  function Ratio(b: real, t: nat, f: nat): real
    requires 0 < f
  {
    (b - t as real) / (f as real) * 255.0
  }

  /** Dividing a bound lo·f <= 255·(b − t) by f > 0. */
  lemma ScaledLower(b: real, t: nat, f: nat, lo: real)
    requires 0 < f && lo * (f as real) <= 255.0 * (b - t as real)
    ensures lo <= Ratio(b, t, f)
  {
    assert Ratio(b, t, f) * (f as real) == 255.0 * (b - t as real);
  }

  /** Dividing a bound 255·(b − t) < hi·f by f > 0. */
  lemma ScaledUpper(b: real, t: nat, f: nat, hi: real)
    requires 0 < f && 255.0 * (b - t as real) < hi * (f as real)
    ensures Ratio(b, t, f) < hi
  {
    assert Ratio(b, t, f) * (f as real) == 255.0 * (b - t as real);
  }

  /** (2m ± 1)·f as a real, split into its parts. */
  lemma OddTimes(m: int, f: nat, sign: int)
    requires sign == 1 || sign == -1
    ensures ((2 * m + sign) * f) as real == (m as real + 0.5 * sign as real) * (f as real) * 2.0
  {
  }

  /** The rounded value is at most 1/2 below the ratio. */
  lemma FeatherLowerHalf(sq: nat, t: nat, f: nat, b: real)
    requires 0 < f && t * t < sq
    requires 0.0 <= b && b * b == sq as real
    ensures LargestReached(sq, t, f, 255) as real - 0.5 <= Ratio(b, t, f)
  {
    var m := LargestReached(sq, t, f, 255);
    if m > 0 {
      ReachedBelow(sq, t, f, m, b);
      OddTimes(m, f, -1);
    } else {
      CastSquare(t);
      RealSquareOrder(t as real, b);
    }
    ScaledLower(b, t, f, m as real - 0.5);
  }

  /** The ratio is less than 1/2 below the next value up. */
  lemma FeatherUpperHalf(sq: nat, t: nat, f: nat, b: real)
    requires 0 < f && sq <= (t + f) * (t + f)
    requires 0.0 <= b && b * b == sq as real
    ensures Ratio(b, t, f) < LargestReached(sq, t, f, 255) as real + 0.5
  {
    var n := LargestReached(sq, t, f, 255) + 1;
    NextUnreached(sq, t, f);
    UnreachedAbove(sq, t, f, n, b);
    UpperStep(b, t, f, n);
    ScaledUpper(b, t, f, n as real - 0.5);
  }

  /** In the feather band the value after the search result is not reached. */
  lemma NextUnreached(sq: nat, t: nat, f: nat)
    requires 0 < f && sq <= (t + f) * (t + f)
    ensures !Reaches(sq, t, f, LargestReached(sq, t, f, 255) + 1)
  {
    var m := LargestReached(sq, t, f, 255);
    FeatherBelow256(sq, t, f);
    if m < 255 {
      LargestReachedExact(sq, t, f, 255, m + 1);
    }
  }

  /** 510·b < (2n − 1)·f + 510·t, halved and with t moved over. */
  lemma UpperStep(b: real, t: nat, f: nat, n: int)
    requires 510.0 * b < ((2 * n - 1) * f + 510 * t) as real
    ensures 255.0 * (b - t as real) < (n as real - 0.5) * (f as real)
  {
    var x := (2 * n - 1) * f;
    assert ((2 * n - 1) * f + 510 * t) as real == x as real + 510.0 * (t as real);
    OddTimes(n, f, -1);
  }

  /** `FeatherAlpha` is `Math.round` of the real ratio: for the brightness b = √sq of a pixel
      in the feather band, r − 1/2 <= (b − t)/f · 255 < r + 1/2. */
  lemma FeatherAlphaIsRound(sq: nat, t: nat, f: nat, b: real)
    requires 0 < f && t * t < sq <= (t + f) * (t + f)
    requires 0.0 <= b && b * b == sq as real
    ensures var r := FeatherAlpha(sq, t, f) as real;
            r - 0.5 <= Ratio(b, t, f) < r + 0.5
  {
    FeatherLowerHalf(sq, t, f, b);
    FeatherUpperHalf(sq, t, f, b);
  }

  /** Across the two lower bands the new alpha does not decrease as the pixel gets brighter,
      and at the top of the feather band it is fully opaque. */
  lemma NewAlphaMonotone(r1: byte, g1: byte, b1: byte, a1: byte, r2: byte, g2: byte, b2: byte, a2: byte,
                         t: nat, f: nat)
    requires SquaredBrightness(r1, g1, b1) <= SquaredBrightness(r2, g2, b2) <= (t + f) * (t + f)
    ensures NewAlpha(r1, g1, b1, a1, t, f) <= NewAlpha(r2, g2, b2, a2, t, f)
  {
    LargestReachedMonotone(SquaredBrightness(r1, g1, b1), SquaredBrightness(r2, g2, b2), t, f, 255);
  }

  lemma FeatherTopIsOpaque(t: nat, f: nat)
    ensures FeatherAlpha((t + f) * (t + f), t, f) == 255
  {
    var sq := (t + f) * (t + f);
    assert 260100 * sq == (510 * t + 510 * f) * (510 * t + 510 * f);
    SquareMonotone(509 * f + 510 * t, 510 * t + 510 * f);
    assert Reaches(sq, t, f, 255);
  }

  // ================================================================ sticker generation

  /** `part.inlineData`; its `data` may be absent, and then renders as "undefined". */
  datatype InlineData = InlineData(data: Option<string>)
  datatype Part = Part(inlineData: Option<InlineData>)

  /** The position of the first part that carries inline data. */
  function FirstInline(parts: seq<Part>): (r: Option<nat>)
    ensures r.Some? ==> r.value < |parts| && parts[r.value].inlineData.Some? &&
                        forall j :: 0 <= j < r.value ==> parts[j].inlineData.None?
    ensures r.None? <==> forall j :: 0 <= j < |parts| ==> parts[j].inlineData.None?
  {
    if parts == [] then None
    else if parts[0].inlineData.Some? then Some(0)
    else match FirstInline(parts[1..])
         case Some(i) => Some(i + 1)
         case None => None
  }

  const PngPrefix := "data:image/png;base64,"
  const JpegPrefix := "data:image/jpeg;base64,"

  function InlineUrl(d: InlineData): (url: string)
    ensures |url| >= |PngPrefix| && url[..|PngPrefix|] == PngPrefix
  {
    PngPrefix + match d.data case Some(x) => x case None => "undefined"
  }

  /** The sticker URL before background removal: the first inline image, else the photo. */
  function StickerUrl(parts: Option<seq<Part>>, base64Image: string): (url: string)
    ensures url != ""
  {
    if parts.Some? && FirstInline(parts.value).Some?
    then InlineUrl(parts.value[FirstInline(parts.value).value].inlineData.value)
    else JpegPrefix + base64Image
  }

  /** The `for … break` search of `generateSticker`, followed by its fallback. */
  method PickStickerUrl(parts: Option<seq<Part>>, base64Image: string) returns (url: string)
    ensures url == StickerUrl(parts, base64Image)
  {
    url := "";
    if parts.Some? {
      var ps := parts.value;
      var i := 0;
      while i < |ps|
        invariant 0 <= i <= |ps|
        invariant forall j :: 0 <= j < i ==> ps[j].inlineData.None?
        invariant url == ""
      {
        if ps[i].inlineData.Some? {
          var d := ps[i].inlineData.value;
          url := PngPrefix + match d.data case Some(x) => x case None => "undefined";
          assert FirstInline(ps) == Some(i);
          break;
        }
        i := i + 1;
      }
    }
    if url == "" {
      url := JpegPrefix + base64Image;
    }
  }

  /** When some part carries an image, the URL is a PNG data URL of the first such part's
      data; otherwise it is the JPEG data URL of the photo. */
  lemma StickerUrlCases(parts: Option<seq<Part>>, base64Image: string)
    ensures forall i :: parts.Some? && 0 <= i < |parts.value| && parts.value[i].inlineData.Some? &&
                        (forall j :: 0 <= j < i ==> parts.value[j].inlineData.None?) ==>
              StickerUrl(parts, base64Image) == InlineUrl(parts.value[i].inlineData.value)
    ensures (parts.None? || forall i :: 0 <= i < |parts.value| ==> parts.value[i].inlineData.None?) ==>
              StickerUrl(parts, base64Image) == JpegPrefix + base64Image
  {
    if parts.Some? {
      var ps := parts.value;
      var r := FirstInline(ps);
      if r.Some? {
        forall i | 0 <= i < |ps| && ps[i].inlineData.Some? &&
                   (forall j :: 0 <= j < i ==> ps[j].inlineData.None?)
          ensures i == r.value
        {
          assert !(i < r.value);
          assert !(r.value < i);
        }
      }
    }
  }

  const DefaultDrama := "我是一件物品，我有话要说。"

  /** `textResponse.text || default`: a missing or empty answer gives the default line. */
  function DramaText(text: Option<string>): (r: string)
    ensures r != ""
    ensures text.Some? && text.value != "" ==> r == text.value
    ensures text.None? || text.value == "" ==> r == DefaultDrama
  {
    if text.Some? && text.value != "" then text.value else DefaultDrama
  }

  /** Feeding the chosen text back in keeps it. */
  lemma DramaTextStable(text: Option<string>)
    ensures DramaText(Some(DramaText(text))) == DramaText(text)
  {
  }
}
