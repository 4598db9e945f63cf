/**
 * The stopwords that extract_skills_from_jd drops from the tokens of a job
 * description. Kept in a module of their own so that the string literals
 * stay out of the proofs that do not look at them.
 */
module Stopwords {
  /** The lightweight stopword list of src/ai/recommender.py. */
  predicate IsStopword(w: string)
  {
    w in {
      "using", "with", "and", "or", "the", "for", "in", "on", "at", "to", "from", "by", "of",
      "experience", "experienced", "years", "year", "skills", "skill", "ability", "abilities",
      "work", "works", "working", "used", "use", "apply", "applied", "that", "is", "are",
      "a", "an", "as", "be", "have", "has", "will", "would", "should", "can", "may", "technologies"
    }
  }}
