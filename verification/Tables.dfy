/** Rows of the constant tables. */
module Tables {

  /** Entry j of a row of sixteen, and the last entry for every j from 15 on. The row is a decision
      tree, which the verifier evaluates at once when j is a literal. */
  function Pick16<T>(j: nat, t0: T, t1: T, t2: T, t3: T, t4: T, t5: T, t6: T, t7: T,
                     t8: T, t9: T, t10: T, t11: T, t12: T, t13: T, t14: T, t15: T): T {
    if j < 8 then
      if j < 4 then
        if j < 2 then if j == 0 then t0 else t1 else if j == 2 then t2 else t3
      else
        if j < 6 then if j == 4 then t4 else t5 else if j == 6 then t6 else t7
    else
      if j < 12 then
        if j < 10 then if j == 8 then t8 else t9 else if j == 10 then t10 else t11
      else
        if j < 14 then if j == 12 then t12 else t13 else if j == 14 then t14 else t15
  }
}
